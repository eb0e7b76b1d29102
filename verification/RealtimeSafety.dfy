/** What every handler keeps, and what follows for every run of the cluster: who may be in a 1-on-1
    room, what a stroke can reach, and how the socket registry and the room caches agree with
    Socket.IO's own membership. */
module RealtimeSafety {
  import opened Common
  import opened RealtimeModel

  /** The room this socket's worker has cached for it. */
  function CachedRoom(x: World, s: SocketId): Option<Room> {
    if s in x.shared.home && x.shared.home[s] in x.locals
    then Get(x.locals[x.shared.home[s]].socketToRoom, s)
    else None
  }

  function LastAdmitted(log: seq<(UserId, SocketId)>, u: UserId): Option<SocketId> {
    if log == [] then None
    else if log[|log| - 1].0 == u then Some(log[|log| - 1].1)
    else LastAdmitted(log[..|log| - 1], u)
  }

  predicate WasAdmitted(log: seq<(UserId, SocketId)>, s: SocketId) {
    exists i :: 0 <= i < |log| && log[i].1 == s
  }

  // ---------------------------------------------------------------------------
  // The invariants
  // ---------------------------------------------------------------------------

  /** Each connected socket is held by exactly one worker, which knows its user; Redis agrees. */
  ghost predicate Indexed(x: World) {
    && x.shared.socketUser.Keys == x.shared.home.Keys
    && (forall s :: s in x.shared.home ==> x.shared.home[s] in x.locals && s in x.locals[x.shared.home[s]].socketToUser)
    && (forall w, s :: w in x.locals && s in x.locals[w].socketToUser ==>
          Get(x.shared.home, s) == Some(w) && Get(x.shared.socketUser, s) == Some(x.locals[w].socketToUser[s]))
    && (forall w :: w in x.locals ==> x.locals[w].socketToRoom.Keys <= x.locals[w].socketToUser.Keys)
  }

  /** A user's entry is its latest admitted socket; every other connected socket was told to go. */
  ghost predicate Registered(h: Shared)
    requires h.socketUser.Keys == h.home.Keys
  {
    && (forall u :: u in h.userSocket ==>
          var s := h.userSocket[u];
          Get(h.socketUser, s) == Some(u) && LastAdmitted(h.admitted, u) == Some(s))
    && (forall s :: s in h.home ==> (s !in h.ordered <==> Get(h.userSocket, h.socketUser[s]) == Some(s)))
    && (forall s :: s in h.home ==> (s !in h.ordered <==> LastAdmitted(h.admitted, h.socketUser[s]) == Some(s)))
    && (forall s :: s in h.home || s in h.ordered ==> WasAdmitted(h.admitted, s))
  }

  /** A socket is a member only of the room its own worker has cached for it. */
  ghost predicate MembersCached(x: World) {
    forall m :: m in x.shared.members ==> CachedRoom(x, m.0) == Some(m.1)
  }

  ghost predicate ForeignKeys(db: Db) {
    && db.requests.Keys <= db.issued
    && (forall r :: r in db.requests ==>
          var q := db.requests[r];
          q.from in db.users && q.to in db.users && q.from != q.to)
    && (forall p :: p in db.blocks ==> p.0 in db.users && p.1 in db.users)
  }

  /** May u sit in the room of request r? */
  ghost predicate Entitled(db: Db, r: RequestId, u: UserId) {
    && r in db.requests
    && db.requests[r].status == Accepted
    && Participant(db.requests[r], u)
    && !Blocked(db, db.requests[r].from, db.requests[r].to)
  }

  ghost predicate MembersEntitled(x: World) {
    forall m :: m in x.shared.members && m.1.Chat? && m.0 in x.shared.socketUser ==>
                  Entitled(x.db, m.1.request, x.shared.socketUser[m.0])
  }

  /** A cached 1-on-1 room, even one the socket has meanwhile been thrown out of, is one of its own chats. */
  ghost predicate CachesOwnChats(x: World) {
    forall s :: s in x.shared.socketUser && CachedRoom(x, s).Some? && CachedRoom(x, s).value.Chat? ==>
                  OwnChat(x.db, CachedRoom(x, s).value.request, x.shared.socketUser[s])
  }

  predicate OwnChat(db: Db, r: RequestId, u: UserId) {
    r in db.issued && (r in db.requests ==> Participant(db.requests[r], u))
  }

  ghost predicate Inv(x: World) {
    && Indexed(x)
    && Registered(x.shared)
    && MembersCached(x)
    && ForeignKeys(x.db)
    && MembersEntitled(x)
    && CachesOwnChats(x)
  }

  // ---------------------------------------------------------------------------
  // Steps that only take sockets out of rooms
  // ---------------------------------------------------------------------------

  /** From x to y sockets, users and the registry stay; sockets may leave rooms and caches may be
      cleared, but whoever stays in a room keeps its cache entry. */
  ghost predicate RoomsShrink(x: World, y: World) {
    && y.locals.Keys == x.locals.Keys
    && (forall w :: w in x.locals ==>
          y.locals[w].socketToUser == x.locals[w].socketToUser
          && y.locals[w].socketToRoom.Keys <= x.locals[w].socketToRoom.Keys)
    && y.shared == x.shared.(members := y.shared.members)
    && y.shared.members <= x.shared.members
    && (forall s :: CachedRoom(y, s) == CachedRoom(x, s) || CachedRoom(y, s) == None)
    && (forall m :: m in y.shared.members ==> CachedRoom(y, m.0) == CachedRoom(x, m.0))
  }

  /** The requests whose room has somebody in it. */
  function Occupied(h: Shared): set<RequestId> {
    set m | m in h.members && m.1.Chat? :: m.1.request
  }

  /** Rows may change as long as whoever sits in an occupied room stays entitled and no request id is reused. */
  ghost predicate RowsFollow(db: Db, db': Db, occupied: set<RequestId>) {
    && ForeignKeys(db')
    && (forall r, u :: r in occupied && Entitled(db, r, u) ==> Entitled(db', r, u))
    && (forall r, u :: OwnChat(db, r, u) ==> OwnChat(db', r, u))
  }

  lemma ShrinkingKeepsIndex(x: World, y: World)
    requires Indexed(x) && RoomsShrink(x, y)
    ensures Indexed(y)
  {
    assert y.shared.home == x.shared.home && y.shared.socketUser == x.shared.socketUser;
    forall s | s in y.shared.home
      ensures y.shared.home[s] in y.locals && s in y.locals[y.shared.home[s]].socketToUser
    {
      var w := x.shared.home[s];
      assert w in x.locals && s in x.locals[w].socketToUser;
      assert y.locals[w].socketToUser == x.locals[w].socketToUser;
    }
    forall w, s | w in y.locals && s in y.locals[w].socketToUser
      ensures Get(y.shared.home, s) == Some(w) && Get(y.shared.socketUser, s) == Some(y.locals[w].socketToUser[s])
    {
      assert w in x.locals && y.locals[w].socketToUser == x.locals[w].socketToUser;
    }
  }

  lemma ShrinkingKeepsMembers(x: World, y: World)
    requires MembersCached(x) && MembersEntitled(x) && RoomsShrink(x, y) && RowsFollow(x.db, y.db, Occupied(y.shared))
    ensures MembersCached(y) && MembersEntitled(y)
  {
    forall m | m in y.shared.members ensures m in x.shared.members && CachedRoom(y, m.0) == Some(m.1) {
      assert CachedRoom(x, m.0) == Some(m.1);
    }
    forall m | m in y.shared.members && m.1.Chat? && m.0 in y.shared.socketUser
      ensures Entitled(y.db, m.1.request, y.shared.socketUser[m.0])
    {
      assert m.1.request in Occupied(y.shared);
    }
  }

  lemma ShrinkingKeeps(x: World, y: World)
    requires Inv(x) && RoomsShrink(x, y) && RowsFollow(x.db, y.db, Occupied(y.shared))
    ensures Inv(y)
  {
    ShrinkingKeepsIndex(x, y);
    ShrinkingKeepsRegistry(x.shared, y.shared);
    ShrinkingKeepsMembers(x, y);
    ShrinkingKeepsOwnChats(x, y);
  }

  lemma ShrinkingKeepsRegistry(h: Shared, h': Shared)
    requires h.socketUser.Keys == h.home.Keys && Registered(h) && h' == h.(members := h'.members)
    ensures Registered(h')
  {
  }

  lemma ShrinkingKeepsOwnChats(x: World, y: World)
    requires CachesOwnChats(x) && RoomsShrink(x, y) && RowsFollow(x.db, y.db, Occupied(y.shared))
    ensures CachesOwnChats(y)
  {
    forall s | s in y.shared.socketUser && CachedRoom(y, s).Some? && CachedRoom(y, s).value.Chat?
      ensures OwnChat(y.db, CachedRoom(y, s).value.request, y.shared.socketUser[s])
    {
      assert CachedRoom(y, s) == CachedRoom(x, s);
      assert OwnChat(x.db, CachedRoom(x, s).value.request, x.shared.socketUser[s]);
    }
  }

  lemma RowsAloneKeep(x: World, db': Db)
    requires Inv(x) && RowsFollow(x.db, db', Occupied(x.shared))
    ensures Inv(x.(db := db'))
  {
    CacheIgnoresRows(x, x.(db := db'));
    ShrinkingKeeps(x, x.(db := db'));
  }

  lemma CacheIgnoresRows(x: World, y: World)
    requires x.locals == y.locals && x.shared == y.shared
    ensures forall s :: CachedRoom(y, s) == CachedRoom(x, s)
  {
  }

  /** Closing rooms and then changing rows so that only requests with closed rooms are affected. */
  lemma CloseThenRowsKeep(x: World, w: WorkerId, rooms: set<Room>, db': Db)
    requires Inv(x) && w in x.locals
    requires RowsFollow(x.db, db', Occupied(CloseRooms(NodeOf(x, w), rooms).shared))
    ensures Inv(WithNode(x, w, CloseRooms(NodeOf(x, w), rooms)).(db := db'))
  {
    var z := WithNode(x, w, CloseRooms(NodeOf(x, w), rooms));
    CloseRoomsShrinks(x, w, rooms);
    CacheIgnoresRows(z, z.(db := db'));
    ShrinkingKeeps(x, z.(db := db'));
  }

  lemma CloseRoomsShrinks(x: World, w: WorkerId, rooms: set<Room>)
    requires w in x.locals && Indexed(x) && MembersCached(x)
    ensures RoomsShrink(x, WithNode(x, w, CloseRooms(NodeOf(x, w), rooms)))
  {
  }

  lemma ForceRemoveShrinks(x: World, w: WorkerId, u: UserId, room: Room)
    requires w in x.locals && Indexed(x) && MembersCached(x)
    ensures RoomsShrink(x, WithNode(x, w, ForceRemove(NodeOf(x, w), u, room)))
  {
  }

  lemma LeaveRoomShrinks(x: World, w: WorkerId, s: SocketId)
    requires w in x.locals && Indexed(x) && MembersCached(x)
    ensures RoomsShrink(x, WithNode(x, w, LeaveRoom(NodeOf(x, w), s)))
  {
  }

  // ---------------------------------------------------------------------------
  // Steps that add a socket, drop a socket, or let one into a room
  // ---------------------------------------------------------------------------

  lemma AdmittedGrows(log: seq<(UserId, SocketId)>, u: UserId, s: SocketId)
    ensures forall v :: LastAdmitted(log + [(u, s)], v) == if v == u then Some(s) else LastAdmitted(log, v)
    ensures forall t :: WasAdmitted(log + [(u, s)], t) <==> t == s || WasAdmitted(log, t)
  {
    var log' := log + [(u, s)];
    assert log'[..|log|] == log && log'[|log|] == (u, s);
    forall t ensures WasAdmitted(log', t) <==> t == s || WasAdmitted(log, t)
    {
      if WasAdmitted(log, t) {
        var i :| 0 <= i < |log| && log[i].1 == t;
        assert log'[i].1 == t;
      }
    }
  }

  lemma EnlistKeepsEntries(h: Shared, w: WorkerId, u: UserId, s: SocketId, v: UserId)
    requires h.socketUser.Keys == h.home.Keys && Registered(h) && s !in h.home
    requires v == u || v in h.userSocket
    ensures var h' := Enlist(h, w, u, s);
            Get(h'.socketUser, h'.userSocket[v]) == Some(v) && LastAdmitted(h'.admitted, v) == Some(h'.userSocket[v])
  {
    AdmittedGrows(h.admitted, u, s);
    if v != u {
      var t := h.userSocket[v];
      assert Get(h.socketUser, t) == Some(v) && LastAdmitted(h.admitted, v) == Some(t);
      assert t != s;
    }
  }

  /** The new socket is its user's entry, and the one it replaces is told to go. */
  lemma EnlistOrdersPrevious(h: Shared, w: WorkerId, u: UserId, s: SocketId)
    requires h.socketUser.Keys == h.home.Keys && Registered(h) && s !in h.home && s !in h.ordered
    ensures var h' := Enlist(h, w, u, s);
            && s !in h'.ordered && h'.userSocket == h.userSocket[u := s] && h'.socketUser == h.socketUser[s := u]
            && forall t :: t in h.home ==>
                 && t != s
                 && (t in h'.ordered <==> t in h.ordered || h.socketUser[t] == u)
  {
    if u in h.userSocket {
      assert Get(h.socketUser, h.userSocket[u]) == Some(u);
    }
    forall t | t in h.home && h.socketUser[t] == u && t !in h.ordered ensures Get(h.userSocket, u) == Some(t) {
    }
  }

  lemma EnlistKeepsOrders(h: Shared, w: WorkerId, u: UserId, s: SocketId, t: SocketId)
    requires h.socketUser.Keys == h.home.Keys && Registered(h)
    requires s !in h.home && s !in h.ordered
    requires t == s || t in h.home
    ensures var h' := Enlist(h, w, u, s);
            && (t !in h'.ordered <==> Get(h'.userSocket, h'.socketUser[t]) == Some(t))
            && (t !in h'.ordered <==> LastAdmitted(h'.admitted, h'.socketUser[t]) == Some(t))
  {
    AdmittedGrows(h.admitted, u, s);
    EnlistOrdersPrevious(h, w, u, s);
    if t != s {
      assert t !in h.ordered <==> Get(h.userSocket, h.socketUser[t]) == Some(t);
      assert t !in h.ordered <==> LastAdmitted(h.admitted, h.socketUser[t]) == Some(t);
    }
  }

  lemma EnlistKeepsRegistry(h: Shared, w: WorkerId, u: UserId, s: SocketId)
    requires h.socketUser.Keys == h.home.Keys && Registered(h) && !WasAdmitted(h.admitted, s)
    ensures Registered(Enlist(h, w, u, s))
  {
    var h' := Enlist(h, w, u, s);
    assert s !in h.home && s !in h.ordered;
    forall v | v in h'.userSocket
      ensures Get(h'.socketUser, h'.userSocket[v]) == Some(v) && LastAdmitted(h'.admitted, v) == Some(h'.userSocket[v])
    {
      EnlistKeepsEntries(h, w, u, s, v);
    }
    forall t | t in h'.home
      ensures t !in h'.ordered <==> Get(h'.userSocket, h'.socketUser[t]) == Some(t)
      ensures t !in h'.ordered <==> LastAdmitted(h'.admitted, h'.socketUser[t]) == Some(t)
    {
      EnlistKeepsOrders(h, w, u, s, t);
    }
    EnlistKeepsAdmitted(h, w, u, s);
  }

  lemma EnlistKeepsAdmitted(h: Shared, w: WorkerId, u: UserId, s: SocketId)
    requires h.socketUser.Keys == h.home.Keys && Registered(h)
    ensures var h' := Enlist(h, w, u, s);
            forall t :: t in h'.home || t in h'.ordered ==> WasAdmitted(h'.admitted, t)
  {
    AdmittedGrows(h.admitted, u, s);
    if u in h.userSocket {
      assert Get(h.socketUser, h.userSocket[u]) == Some(u);
    }
  }

  function Connected(x: World, w: WorkerId, s: SocketId, u: UserId): World
    requires w in x.locals
  {
    WithNode(x, w, Node(x.locals[w].(socketToUser := x.locals[w].socketToUser[s := u]), Enlist(x.shared, w, u, s)))
  }

  lemma ConnectIndexed(x: World, w: WorkerId, s: SocketId, u: UserId)
    requires Indexed(x) && w in x.locals && s !in x.shared.home
    ensures Indexed(Connected(x, w, s, u))
  {
    var y := Connected(x, w, s, u);
    forall v, t | v in y.locals && t in y.locals[v].socketToUser
      ensures Get(y.shared.home, t) == Some(v)
      ensures Get(y.shared.socketUser, t) == Some(y.locals[v].socketToUser[t])
    {
      if t in x.locals[v].socketToUser {
        HeldAtHome(x, v, t);
      }
    }
  }

  lemma ConnectKeepsCaches(x: World, w: WorkerId, s: SocketId, u: UserId)
    requires Indexed(x) && w in x.locals && s !in x.shared.home
    ensures forall t :: CachedRoom(Connected(x, w, s, u), t) == CachedRoom(x, t)
  {
    if s in x.locals[w].socketToUser {
      HeldAtHome(x, w, s);
    }
  }

  lemma HeldAtHome(x: World, w: WorkerId, s: SocketId)
    requires Indexed(x) && w in x.locals && s in x.locals[w].socketToUser
    ensures s in x.shared.home && x.shared.home[s] == w
    ensures s in x.shared.socketUser && x.shared.socketUser[s] == x.locals[w].socketToUser[s]
  {
    assert Get(x.shared.home, s) == Some(w) && Get(x.shared.socketUser, s) == Some(x.locals[w].socketToUser[s]);
  }

  lemma ConnectKeepsRooms(x: World, w: WorkerId, s: SocketId, u: UserId)
    requires Indexed(x) && MembersCached(x) && MembersEntitled(x) && CachesOwnChats(x)
    requires w in x.locals && s !in x.shared.home
    ensures var y := Connected(x, w, s, u);
            MembersCached(y) && MembersEntitled(y) && CachesOwnChats(y)
  {
    var y := Connected(x, w, s, u);
    ConnectKeepsCaches(x, w, s, u);
    assert y.shared.members == x.shared.members && y.db == x.db;
    forall m | m in y.shared.members ensures m.0 != s {
      assert CachedRoom(x, m.0) == Some(m.1);
    }
    forall t | t in y.shared.socketUser && CachedRoom(y, t).Some? && CachedRoom(y, t).value.Chat?
      ensures OwnChat(y.db, CachedRoom(y, t).value.request, y.shared.socketUser[t])
    {
      assert CachedRoom(x, t) == CachedRoom(y, t) && t != s;
    }
  }

  lemma ConnectKeeps(x: World, w: WorkerId, s: SocketId, token: Option<Token>)
    requires Inv(x) && Possible(x, ConnectSocket(w, s, token))
    ensures Inv(Step(x, ConnectSocket(w, s, token)))
  {
    var y := Step(x, ConnectSocket(w, s, token));
    if MayConnect(x.db, token) {
      assert !WasAdmitted(x.shared.admitted, s);
      EnlistKeepsRegistry(x.shared, w, token.value.sub, s);
      ConnectIndexed(x, w, s, token.value.sub);
      ConnectKeepsRooms(x, w, s, token.value.sub);
      assert y == Connected(x, w, s, token.value.sub);
    } else {
      assert y == x;
    }
  }

  lemma DisconnectKeepsRegistry(n: Node, s: SocketId)
    requires n.shared.socketUser.Keys == n.shared.home.Keys && Registered(n.shared)
    requires s in n.local.socketToUser && Get(n.shared.socketUser, s) == Some(n.local.socketToUser[s])
    ensures Registered(Disconnect(n, s).shared)
  {
  }

  lemma DisconnectIndexed(x: World, w: WorkerId, s: SocketId)
    requires Indexed(x) && w in x.locals && Get(x.shared.home, s) == Some(w)
    ensures var y := WithNode(x, w, Disconnect(NodeOf(x, w), s));
            Indexed(y) && forall t :: CachedRoom(y, t) == if t == s then None else CachedRoom(x, t)
  {
    var y := WithNode(x, w, Disconnect(NodeOf(x, w), s));
    forall v, t | v in y.locals && t in y.locals[v].socketToUser
      ensures Get(y.shared.home, t) == Some(v) && Get(y.shared.socketUser, t) == Some(y.locals[v].socketToUser[t])
    {
      assert t in x.locals[v].socketToUser;
      HeldAtHome(x, v, t);
      HeldAtHome(x, w, s);
    }
    HeldAtHome(x, w, s);
  }

  lemma DisconnectKeeps(x: World, w: WorkerId, s: SocketId)
    requires Inv(x) && Possible(x, DisconnectSocket(w, s))
    ensures Inv(Step(x, DisconnectSocket(w, s)))
  {
    var y := Step(x, DisconnectSocket(w, s));
    DisconnectKeepsRegistry(NodeOf(x, w), s);
    DisconnectIndexed(x, w, s);
    assert MembersCached(y);
    assert MembersEntitled(y);
    assert CachesOwnChats(y);
  }

  lemma EnterRoomIndexed(x: World, w: WorkerId, s: SocketId, room: Room)
    requires Indexed(x) && w in x.locals && s in x.locals[w].socketToUser
    ensures var y := WithNode(x, w, EnterRoom(NodeOf(x, w), s, room));
            Indexed(y) && forall t :: CachedRoom(y, t) == if t == s then Some(room) else CachedRoom(x, t)
  {
    assert Get(x.shared.home, s) == Some(w);
  }

  /** Joining a room the socket's user is entitled to; any other room it sat in is left first. */
  lemma EnterRoomKeeps(x: World, w: WorkerId, s: SocketId, room: Room)
    requires Inv(x) && w in x.locals && s in x.locals[w].socketToUser
    requires room.Chat? ==> Entitled(x.db, room.request, x.locals[w].socketToUser[s])
    ensures Inv(WithNode(x, w, EnterRoom(NodeOf(x, w), s, room)))
  {
    var y := WithNode(x, w, EnterRoom(NodeOf(x, w), s, room));
    EnterRoomIndexed(x, w, s, room);
    HeldAtHome(x, w, s);
    EnterRoomMembers(x, w, s, room);
    assert Registered(y.shared);
    forall m | m in y.shared.members
      ensures CachedRoom(y, m.0) == Some(m.1)
      ensures m.1.Chat? && m.0 in y.shared.socketUser ==> Entitled(y.db, m.1.request, y.shared.socketUser[m.0])
    {
      assert m == (s, room) || (m in x.shared.members && m.0 != s);
    }
    assert CachesOwnChats(y);
  }

  lemma EnterRoomMembers(x: World, w: WorkerId, s: SocketId, room: Room)
    requires Indexed(x) && MembersCached(x) && w in x.locals && s in x.locals[w].socketToUser
    ensures forall m :: m in EnterRoom(NodeOf(x, w), s, room).shared.members <==>
                          m == (s, room) || (m in x.shared.members && m.0 != s)
  {
    HeldAtHome(x, w, s);
    forall m | m in x.shared.members && m.0 == s
      ensures Get(x.locals[w].socketToRoom, s) == Some(m.1)
    {
      assert CachedRoom(x, m.0) == Some(m.1);
    }
  }

  // ---------------------------------------------------------------------------
  // Steps on rows
  // ---------------------------------------------------------------------------

  /** Requests, answers, withdrawals, unblocks and profile writes take no room away under anyone. */
  lemma AskFollows(db: Db, from: UserId, to: Option<UserId>, accepting: bool, id: RequestId, occupied: set<RequestId>)
    requires ForeignKeys(db) && id !in db.issued
    ensures RowsFollow(db, CreateRequest(db, from, to, accepting, id).0, occupied)
  {
  }

  lemma AnswerFollows(db: Db, id: RequestId, u: UserId, accept: bool, occupied: set<RequestId>)
    requires ForeignKeys(db)
    ensures RowsFollow(db, Respond(db, id, u, accept).0, occupied)
  {
  }

  lemma WithdrawFollows(db: Db, id: RequestId, u: UserId, occupied: set<RequestId>)
    requires ForeignKeys(db)
    ensures RowsFollow(db, Cancel(db, id, u).0, occupied)
  {
  }

  lemma AdmissionFollows(db: Db, id: RequestId, u: UserId, occupied: set<RequestId>)
    requires ForeignKeys(db)
    ensures RowsFollow(db, AdmitToChat(db, id, u).0, occupied)
  {
  }

  lemma UnblockFollows(db: Db, a: UserId, b: UserId, occupied: set<RequestId>)
    requires ForeignKeys(db)
    ensures RowsFollow(db, Unblock(db, a, b), occupied)
  {
  }

  lemma ClosedAreUnoccupied(n: Node, rooms: set<Room>)
    ensures forall r :: r in Occupied(CloseRooms(n, rooms).shared) ==> Chat(r) !in rooms
  {
  }

  lemma BlockFollows(db: Db, a: UserId, b: UserId, occupied: set<RequestId>)
    requires ForeignKeys(db) && a in db.users && b in db.users
    requires forall r :: r in occupied ==> Chat(r) !in RoomsBetween(db, a, b)
    ensures RowsFollow(db, db.(blocks := db.blocks + {(a, b)}), occupied)
  {
  }

  lemma RemovalFollows(db: Db, id: RequestId, occupied: set<RequestId>)
    requires ForeignKeys(db) && id !in occupied
    ensures RowsFollow(db, db.(requests := db.requests - {id}), occupied)
  {
  }

  lemma DeletionFollows(db: Db, u: UserId, occupied: set<RequestId>)
    requires ForeignKeys(db) && forall r :: r in occupied ==> Chat(r) !in RoomsOf(db, u)
    ensures RowsFollow(db, WithoutUser(db, u), occupied)
  {
  }

  lemma JoinKeeps(x: World, w: WorkerId, s: SocketId, id: RequestId)
    requires Inv(x) && Possible(x, Join(w, s, id))
    ensures Inv(Step(x, Join(w, s, id)))
  {
    var y := Step(x, Join(w, s, id));
    var local := x.locals[w];
    if s in local.socketToUser {
      var (db, reply) := AdmitToChat(x.db, id, local.socketToUser[s]);
      if reply == Done {
        EnterRoomKeeps(x, w, s, Chat(id));
      } else {
        AdmissionFollows(x.db, id, local.socketToUser[s], Occupied(x.shared));
        RowsAloneKeep(x, db);
        assert y == x.(db := db);
      }
    } else {
      assert y == x;
    }
  }

  lemma BlockKeeps(x: World, w: WorkerId, a: UserId, b: UserId)
    requires Inv(x) && Possible(x, BlockUser(w, a, b))
    ensures Inv(Step(x, BlockUser(w, a, b)))
  {
    if a == b || b !in x.db.users || (a, b) in x.db.blocks || a !in x.db.users {
      assert Step(x, BlockUser(w, a, b)) == x;
    } else {
      var rooms := RoomsBetween(x.db, a, b);
      ClosedAreUnoccupied(NodeOf(x, w), rooms);
      BlockFollows(x.db, a, b, Occupied(CloseRooms(NodeOf(x, w), rooms).shared));
      CloseThenRowsKeep(x, w, rooms, x.db.(blocks := x.db.blocks + {(a, b)}));
    }
  }

  lemma RemoveKeeps(x: World, w: WorkerId, id: RequestId, u: UserId)
    requires Inv(x) && Possible(x, Remove(w, id, u))
    ensures Inv(Step(x, Remove(w, id, u)))
  {
    if id !in x.db.requests || !Participant(x.db.requests[id], u) || x.db.requests[id].status != Accepted {
      assert Step(x, Remove(w, id, u)) == x;
    } else {
      ClosedAreUnoccupied(NodeOf(x, w), {Chat(id)});
      RemovalFollows(x.db, id, Occupied(CloseRooms(NodeOf(x, w), {Chat(id)}).shared));
      CloseThenRowsKeep(x, w, {Chat(id)}, x.db.(requests := x.db.requests - {id}));
    }
  }

  lemma DeleteUserKeeps(x: World, w: WorkerId, u: UserId)
    requires Inv(x) && Possible(x, DeleteUser(w, u))
    ensures Inv(Step(x, DeleteUser(w, u)))
  {
    if u !in x.db.users {
      assert Step(x, DeleteUser(w, u)) == x;
    } else {
      var rooms := RoomsOf(x.db, u);
      ClosedAreUnoccupied(NodeOf(x, w), rooms);
      DeletionFollows(x.db, u, Occupied(CloseRooms(NodeOf(x, w), rooms).shared));
      CloseThenRowsKeep(x, w, rooms, WithoutUser(x.db, u));
    }
  }

  lemma RowStepKeeps(x: World, e: Event)
    requires Inv(x) && Possible(x, e) && !OnWorker(e)
    ensures Inv(Step(x, e))
  {
    var occupied := Occupied(x.shared);
    match e {
      case Ask(id, from, to, accepting) => AskFollows(x.db, from, to, accepting, id, occupied);
      case Answer(id, u, accept) => AnswerFollows(x.db, id, u, accept, occupied);
      case Withdraw(id, u) => WithdrawFollows(x.db, id, u, occupied);
      case UnblockUser(a, b) => UnblockFollows(x.db, a, b, occupied);
      case SaveUser(u, row) =>
    }
    RowsAloneKeep(x, Step(x, e).db);
  }

  lemma EnterGroupKeeps(x: World, w: WorkerId, s: SocketId, g: GroupId, verdict: Reply)
    requires Inv(x) && Possible(x, EnterGroup(w, s, g, verdict))
    ensures Inv(Step(x, EnterGroup(w, s, g, verdict)))
  {
    if s in x.locals[w].socketToUser && verdict == Done {
      EnterRoomKeeps(x, w, s, Group(g));
    } else {
      assert Step(x, EnterGroup(w, s, g, verdict)) == x;
    }
  }

  /** Leaving, closing a group and removing a member only take sockets out of rooms. */
  lemma LeavingStepKeeps(x: World, e: Event)
    requires Inv(x) && Possible(x, e) && (e.Leave? || e.CloseGroup? || e.RemoveFromGroup?)
    ensures Inv(Step(x, e))
  {
    match e {
      case Leave(w, s) => LeaveRoomShrinks(x, w, s);
      case CloseGroup(w, g) => CloseRoomsShrinks(x, w, {Group(g)});
      case RemoveFromGroup(w, u, g) => ForceRemoveShrinks(x, w, u, Group(g));
    }
    ShrinkingKeeps(x, Step(x, e));
  }

  lemma StepKeeps(x: World, e: Event)
    requires Inv(x) && Possible(x, e)
    ensures Inv(Step(x, e))
  {
    match e
    case ConnectSocket(w, s, token) => ConnectKeeps(x, w, s, token);
    case DisconnectSocket(w, s) => DisconnectKeeps(x, w, s);
    case Join(w, s, id) => JoinKeeps(x, w, s, id);
    case EnterGroup(w, s, g, verdict) => EnterGroupKeeps(x, w, s, g, verdict);
    case Remove(w, id, u) => RemoveKeeps(x, w, id, u);
    case BlockUser(w, a, b) => BlockKeeps(x, w, a, b);
    case DeleteUser(w, u) => DeleteUserKeeps(x, w, u);
    case Leave(_, _) => LeavingStepKeeps(x, e);
    case CloseGroup(_, _) => LeavingStepKeeps(x, e);
    case RemoveFromGroup(_, _, _) => LeavingStepKeeps(x, e);
    case _ => RowStepKeeps(x, e);
  }

  lemma {:induction false} RunKeeps(x: World, es: seq<Event>)
    requires Inv(x) && PossibleRun(x, es)
    ensures Inv(Run(x, es))
    decreases |es|
  {
    if es != [] {
      StepKeeps(x, es[0]);
      RunKeeps(Step(x, es[0]), es[1..]);
    }
  }
}
