/** The guarantees of the realtime part, for every reachable state of a cluster of any size. */
module RealtimeTheorems {
  import opened Common
  import opened RealtimeModel
  import opened RealtimeSafety

  ghost predicate Reachable(x: World) {
    exists workers, users, es :: ReachedBy(x, workers, users, es)
  }

  ghost predicate ReachedBy(x: World, workers: set<WorkerId>, users: map<UserId, User>, es: seq<Event>) {
    PossibleRun(Start(workers, users), es) && x == Run(Start(workers, users), es)
  }

  lemma ReachableIsInv(x: World)
    requires Reachable(x)
    ensures Inv(x)
  {
    var workers, users, es :| ReachedBy(x, workers, users, es);
    RunKeeps(Start(workers, users), es);
  }

  // ---------------------------------------------------------------------------
  // 1-on-1 rooms
  // ---------------------------------------------------------------------------

  /** Whoever is in `chat:r` belongs to a participant of the accepted request r, and no block stands
      between the two participants. */
  lemma RoomsHoldOnlyEntitled(x: World, s: SocketId, r: RequestId)
    requires Reachable(x) && (s, Chat(r)) in x.shared.members
    ensures s in x.shared.home && s in x.shared.socketUser && Entitled(x.db, r, x.shared.socketUser[s])
  {
    ReachableIsInv(x);
    MemberEntitled(x, s, r);
  }

  lemma OneRoomPerSocket(x: World, s: SocketId, r: Room, r': Room)
    requires Reachable(x) && (s, r) in x.shared.members && (s, r') in x.shared.members
    ensures r == r'
  {
    ReachableIsInv(x);
    assert CachedRoom(x, (s, r).0) == Some((s, r).1);
    assert CachedRoom(x, (s, r').0) == Some((s, r').1);
  }

  /** Even a worker with an outdated cache relays a 1-on-1 stroke only between the participants of an
      accepted, unblocked request. */
  lemma StrokesStayBetweenParticipants(x: World, w: WorkerId, s: SocketId, t: SocketId)
    requires Reachable(x) && w in x.locals
    requires Recipients(NodeOf(x, w), s).Some? && t in Recipients(NodeOf(x, w), s).value
    requires x.locals[w].socketToRoom[s].Chat?
    ensures t != s && s in x.shared.socketUser && t in x.shared.socketUser
    ensures var r := x.locals[w].socketToRoom[s].request;
            Entitled(x.db, r, x.shared.socketUser[s]) && Entitled(x.db, r, x.shared.socketUser[t])
  {
    ReachableIsInv(x);
    HeldAtHome(x, w, s);
    var r := x.locals[w].socketToRoom[s].request;
    assert CachedRoom(x, s) == Some(Chat(r));
    RoomsHoldOnlyEntitled(x, t, r);
  }

  /** Joining succeeds exactly for the entitled, and then the socket is in that room and no other;
      a refusal changes nobody's membership. */
  lemma JoinAdmitsExactlyTheEntitled(x: World, w: WorkerId, s: SocketId, id: RequestId)
    requires Reachable(x) && Possible(x, Join(w, s, id)) && s in x.shared.home && s in x.shared.socketUser
    ensures JoinAdmits(x, w, s, id)
  {
    ReachableIsInv(x);
    JoinAdmitsUnderInv(x, w, s, id);
  }

  ghost predicate JoinAdmits(x: World, w: WorkerId, s: SocketId, id: RequestId)
    requires w in x.locals && s in x.shared.socketUser
  {
    var (db, n, reply) := JoinChat(x.db, NodeOf(x, w), s, id);
    && (reply == Done <==> Entitled(x.db, id, x.shared.socketUser[s]))
    && (reply == Done ==> forall r :: (s, r) in n.shared.members <==> r == Chat(id))
    && (reply != Done ==> n.shared.members == x.shared.members)
    && (forall t, r :: t != s ==> ((t, r) in n.shared.members <==> (t, r) in x.shared.members))
  }

  lemma JoinAdmitsUnderInv(x: World, w: WorkerId, s: SocketId, id: RequestId)
    requires Inv(x) && Possible(x, Join(w, s, id)) && s in x.shared.home && s in x.shared.socketUser
    ensures JoinAdmits(x, w, s, id)
  {
    HeldAtHome(x, w, s);
    AdmittedIffEntitled(x.db, id, x.shared.socketUser[s]);
    EnterRoomMembers(x, w, s, Chat(id));
  }

  lemma AdmittedIffEntitled(db: Db, id: RequestId, u: UserId)
    ensures AdmitToChat(db, id, u).1 == Done <==> Entitled(db, id, u)
  {
  }

  /** Accepting opens the room to both sides; a block in the meantime discards the request. */
  lemma AnswerEntitlesBothOrDiscards(x: World, id: RequestId, u: UserId)
    requires id in x.db.requests
    requires x.db.requests[id].to == u && x.db.requests[id].status == Pending
    ensures var q := x.db.requests[id];
            var (db, reply) := Respond(x.db, id, u, true);
            if Blocked(x.db, q.from, q.to) then id !in db.requests && reply == Forbidden
            else reply == Done && Entitled(db, id, q.from) && Entitled(db, id, q.to)
  {
  }

  /** The socket is connected to this worker as this user. */
  predicate ConnectedAs(x: World, w: WorkerId, s: SocketId, u: UserId) {
    w in x.locals && Get(x.shared.home, s) == Some(w) && Get(x.shared.socketUser, s) == Some(u)
  }

  /** A join of an entitled user's socket puts it in the room and leaves everything else about the others alone. */
  lemma EntitledJoin(x: World, w: WorkerId, s: SocketId, u: UserId, id: RequestId)
    requires Inv(x) && ConnectedAs(x, w, s, u) && Entitled(x.db, id, u)
    ensures Possible(x, Join(w, s, id))
    ensures var y := Step(x, Join(w, s, id));
            && Inv(y) && y.db == x.db && y.locals.Keys == x.locals.Keys
            && y.shared.home == x.shared.home && y.shared.socketUser == x.shared.socketUser
            && (s, Chat(id)) in y.shared.members
            && forall t, r :: t != s && (t, r) in x.shared.members ==> (t, r) in y.shared.members
  {
    JoinAdmitsUnderInv(x, w, s, id);
    StepKeeps(x, Join(w, s, id));
    HeldByHome(x, s);
  }

  /** A member's worker relays its strokes to the room's other members. */
  lemma MembersReachEachOther(x: World, w: WorkerId, s: SocketId, t: SocketId, room: Room)
    requires Inv(x) && Get(x.shared.home, s) == Some(w) && s != t
    requires (s, room) in x.shared.members && (t, room) in x.shared.members
    ensures w in x.locals && Recipients(NodeOf(x, w), s).Some? && t in Recipients(NodeOf(x, w), s).value
  {
    assert CachedRoom(x, (s, room).0) == Some((s, room).1);
    assert (t, room).1 == room;
  }

  /** Accepting lets both sides in, whatever happened before: each one's socket can join, on whichever workers they
      are, and then a stroke of either reaches the other. A block in the meantime discards the request and both are
      refused. */
  lemma AcceptedPairCanDraw(x: World, id: RequestId, v: WorkerId, s: SocketId, w: WorkerId, t: SocketId)
    requires Reachable(x) && id in x.db.requests && x.db.requests[id].status == Pending
    requires ConnectedAs(x, v, s, x.db.requests[id].from) && ConnectedAs(x, w, t, x.db.requests[id].to)
    ensures var q := x.db.requests[id];
            var y := Step(x, Answer(id, q.to, true));
            if Blocked(x.db, q.from, q.to) then
              JoinChat(y.db, NodeOf(y, v), s, id).2 == NotFound && JoinChat(y.db, NodeOf(y, w), t, id).2 == NotFound
            else
              && Possible(y, Join(v, s, id)) && Possible(Step(y, Join(v, s, id)), Join(w, t, id))
              && var z := Step(Step(y, Join(v, s, id)), Join(w, t, id));
                 && v in z.locals && w in z.locals
                 && Recipients(NodeOf(z, v), s).Some? && t in Recipients(NodeOf(z, v), s).value
                 && Recipients(NodeOf(z, w), t).Some? && s in Recipients(NodeOf(z, w), t).value
  {
    ReachableIsInv(x);
    var q := x.db.requests[id];
    StepKeeps(x, Answer(id, q.to, true));
    AnswerEntitlesBothOrDiscards(x, id, q.to);
    var y := Step(x, Answer(id, q.to, true));
    HeldByHome(x, s);
    HeldByHome(x, t);
    if !Blocked(x.db, q.from, q.to) {
      EntitledJoin(y, v, s, q.from, id);
      var y' := Step(y, Join(v, s, id));
      EntitledJoin(y', w, t, q.to, id);
      var z := Step(y', Join(w, t, id));
      MembersReachEachOther(z, v, s, t, Chat(id));
      MembersReachEachOther(z, w, t, s, Chat(id));
    }
  }

  /** After a block, in whichever direction and also when it already existed, nobody sits in a room
      between the two, and nobody can enter one. */
  lemma BlockEvictsAndBars(x: World, w: WorkerId, a: UserId, b: UserId, r: RequestId, u: UserId)
    requires Reachable(x) && w in x.locals && Block(x.db, NodeOf(x, w), a, b).2 == Done
    requires r in x.db.requests && Participant(x.db.requests[r], a) && Participant(x.db.requests[r], b)
    ensures var (db, n, _) := Block(x.db, NodeOf(x, w), a, b);
            Blocked(db, a, b) && AdmitToChat(db, r, u).1 != Done && forall s :: (s, Chat(r)) !in n.shared.members
  {
    ReachableIsInv(x);
    var db := Block(x.db, NodeOf(x, w), a, b).0;
    AdmittedIffEntitled(db, r, u);
    assert !Entitled(db, r, u);
    StepKeeps(x, BlockUser(w, a, b));
    BlockedRoomIsEmpty(Step(x, BlockUser(w, a, b)), r);
  }

  lemma BlockedRoomIsEmpty(x: World, r: RequestId)
    requires Inv(x) && (r in x.db.requests ==> Blocked(x.db, x.db.requests[r].from, x.db.requests[r].to))
    ensures forall s :: (s, Chat(r)) !in x.shared.members
  {
    forall s | (s, Chat(r)) in x.shared.members ensures false {
      MemberEntitled(x, s, r);
    }
  }

  lemma MemberEntitled(x: World, s: SocketId, r: RequestId)
    requires Inv(x) && (s, Chat(r)) in x.shared.members
    ensures s in x.shared.home && s in x.shared.socketUser && Entitled(x.db, r, x.shared.socketUser[s])
  {
    assert CachedRoom(x, s) == Some(Chat(r));
    assert (s, Chat(r)).1.request == r;
  }

  /** A deleted account leaves no request, no block and no occupied 1-on-1 room behind. */
  lemma DeletionLeavesNothing(x: World, w: WorkerId, u: UserId)
    requires Reachable(x) && w in x.locals && u in x.db.users
    ensures var (db, n, reply) := DeleteAccount(x.db, NodeOf(x, w), u);
            && reply == Done && u !in db.users && ForeignKeys(db)
            && (forall r :: r in db.requests <==> r in x.db.requests && !Participant(x.db.requests[r], u))
            && (forall v :: !Blocked(db, u, v))
            && (forall s, r :: (s, Chat(r)) in n.shared.members ==> r in db.requests)
  {
    ReachableIsInv(x);
    StepKeeps(x, DeleteUser(w, u));
    var y := Step(x, DeleteUser(w, u));
    forall s, r | (s, Chat(r)) in y.shared.members
      ensures r in y.db.requests
    {
      MemberEntitled(y, s, r);
    }
  }

  // ---------------------------------------------------------------------------
  // The room caches
  // ---------------------------------------------------------------------------

  /** The caches name exactly the rooms the sockets are in. */
  ghost predicate CachesExact(x: World) {
    forall s, r :: CachedRoom(x, s) == Some(r) <==> (s, r) in x.shared.members
  }

  /** Rooms the event forces everybody out of. */
  function RoomsClosedBy(x: World, e: Event): set<Room> {
    match e
    case Remove(w, id, u) =>
      if id in x.db.requests && Participant(x.db.requests[id], u) && x.db.requests[id].status == Accepted
      then {Chat(id)} else {}
    case BlockUser(w, a, b) =>
      if a != b && b in x.db.users && (a, b) !in x.db.blocks && a in x.db.users then RoomsBetween(x.db, a, b) else {}
    case DeleteUser(w, u) => if u in x.db.users then RoomsOf(x.db, u) else {}
    case CloseGroup(w, g) => {Group(g)}
    case _ => {}
  }

  /** Whoever the event forces out is held by the worker that handles it. */
  ghost predicate ForcesOutLocally(x: World, e: Event)
    requires OnWorker(e) ==> e.w in x.locals
  {
    && (forall m :: m in x.shared.members && m.1 in RoomsClosedBy(x, e) ==> Get(x.shared.home, m.0) == Some(e.w))
    && ((e.RemoveFromGroup? && e.u in x.shared.userSocket &&
        (x.shared.userSocket[e.u], Group(e.g)) in x.shared.members) ==>
          Get(x.shared.home, x.shared.userSocket[e.u]) == Some(e.w))
  }

  lemma ClosingCaches(x: World, w: WorkerId, rooms: set<Room>)
    requires Indexed(x) && CachesExact(x) && w in x.locals
    ensures var y := WithNode(x, w, CloseRooms(NodeOf(x, w), rooms));
            forall s, r :: CachedRoom(y, s) == Some(r) <==>
              CachedRoom(x, s) == Some(r) && !(r in rooms && Get(x.shared.home, s) == Some(w))
  {
  }

  lemma ExactAfterClosingIff(x: World, y: World, w: WorkerId, rooms: set<Room>)
    requires CachesExact(x)
    requires forall s, r :: CachedRoom(y, s) == Some(r) <==>
               CachedRoom(x, s) == Some(r) && !(r in rooms && Get(x.shared.home, s) == Some(w))
    requires forall m :: m in y.shared.members <==> m in x.shared.members && m.1 !in rooms
    ensures CachesExact(y) <==> forall m :: m in x.shared.members && m.1 in rooms ==> Get(x.shared.home, m.0) == Some(w)
  {
    if m :| m in x.shared.members && m.1 in rooms && Get(x.shared.home, m.0) != Some(w) {
      assert m == (m.0, m.1);
      assert CachedRoom(x, m.0) == Some(m.1);
      assert CachedRoom(y, m.0) == Some(m.1) && (m.0, m.1) !in y.shared.members;
    } else {
      forall s, r: Room ensures CachedRoom(y, s) == Some(r) <==> (s, r) in y.shared.members {
        assert CachedRoom(x, s) == Some(r) <==> (s, r) in x.shared.members;
        assert (s, r) in x.shared.members && (s, r).1 in rooms ==> Get(x.shared.home, (s, r).0) == Some(w);
      }
    }
  }

  lemma CloseExactIffLocal(x: World, w: WorkerId, rooms: set<Room>)
    requires Inv(x) && CachesExact(x) && w in x.locals
    ensures CachesExact(WithNode(x, w, CloseRooms(NodeOf(x, w), rooms)))
       <==> forall m :: m in x.shared.members && m.1 in rooms ==> Get(x.shared.home, m.0) == Some(w)
  {
    ClosingCaches(x, w, rooms);
    ExactAfterClosingIff(x, WithNode(x, w, CloseRooms(NodeOf(x, w), rooms)), w, rooms);
  }

  lemma RemovalExactIffLocal(x: World, w: WorkerId, u: UserId, room: Room)
    requires Inv(x) && CachesExact(x) && w in x.locals
    ensures CachesExact(WithNode(x, w, ForceRemove(NodeOf(x, w), u, room)))
       <==> ((u in x.shared.userSocket && (x.shared.userSocket[u], room) in x.shared.members) ==>
               Get(x.shared.home, x.shared.userSocket[u]) == Some(w))
  {
    var y := WithNode(x, w, ForceRemove(NodeOf(x, w), u, room));
    if u in x.shared.userSocket {
      assert y == WithNode(x, w, Evicted(NodeOf(x, w), x.shared.userSocket[u], room));
      EvictionExactIffLocal(x, w, x.shared.userSocket[u], room);
    } else {
      assert y == x;
    }
  }

  lemma EvictionExactIffLocal(x: World, w: WorkerId, s: SocketId, room: Room)
    requires Indexed(x) && CachesExact(x) && w in x.locals
    ensures CachesExact(WithNode(x, w, Evicted(NodeOf(x, w), s, room)))
       <==> ((s, room) in x.shared.members ==> Get(x.shared.home, s) == Some(w))
  {
    var y := WithNode(x, w, Evicted(NodeOf(x, w), s, room));
    RemovalCaches(x, w, s, room);
    assert CachedRoom(x, s) == Some(room) <==> (s, room) in x.shared.members;
    if (s, room) in x.shared.members && Get(x.shared.home, s) != Some(w) {
      assert CachedRoom(y, s) == Some(room) && (s, room) !in y.shared.members;
    } else {
      forall t, r: Room ensures CachedRoom(y, t) == Some(r) <==> (t, r) in y.shared.members
      {
        assert CachedRoom(x, t) == Some(r) <==> (t, r) in x.shared.members;
      }
    }
  }

  lemma RemovalCaches(x: World, w: WorkerId, s: SocketId, room: Room)
    requires Indexed(x) && w in x.locals
    ensures var y := WithNode(x, w, Evicted(NodeOf(x, w), s, room));
            forall t :: CachedRoom(y, t) ==
              if t == s && CachedRoom(x, s) == Some(room) && Get(x.shared.home, s) == Some(w) then None
                  else CachedRoom(x, t)
  {
    if s in x.locals[w].socketToRoom {
      HeldAtHome(x, w, s);
    }
  }

  /** A step keeps the caches exact exactly when everybody it forces out of a room is held by the
      worker that handles it. */
  lemma StepExactIffLocal(x: World, e: Event)
    requires Inv(x) && CachesExact(x) && Possible(x, e)
    ensures CachesExact(Step(x, e)) <==> ForcesOutLocally(x, e)
  {
    if e.Remove? || e.BlockUser? || e.DeleteUser? || e.CloseGroup? {
      ClosingExact(x, e);
    } else if e.RemoveFromGroup? {
      RemovalExactIffLocal(x, e.w, e.u, Group(e.g));
    } else {
      ForcesNobodyOut(x, e);
      OtherStepExact(x, e);
    }
  }

  predicate ForcesNobody(e: Event) {
    !(e.Remove? || e.BlockUser? || e.DeleteUser? || e.CloseGroup? || e.RemoveFromGroup?)
  }

  lemma ForcesNobodyOut(x: World, e: Event)
    requires ForcesNobody(e) && (OnWorker(e) ==> e.w in x.locals)
    ensures ForcesOutLocally(x, e)
  {
  }

  lemma OtherStepExact(x: World, e: Event)
    requires Inv(x) && CachesExact(x) && Possible(x, e) && ForcesNobody(e)
    ensures CachesExact(Step(x, e))
  {
    match e
    case ConnectSocket(w, s, token) => ConnectExact(x, w, s, token);
    case DisconnectSocket(w, s) => DisconnectIndexed(x, w, s);
    case Join(w, s, id) => JoinExact(x, w, s, id);
    case EnterGroup(w, s, g, verdict) => EnterGroupExact(x, w, s, g, verdict);
    case Leave(w, s) => LeaveRoomExact(x, w, s);
    case _ => RowsExact(x, e);
  }

  lemma EnterGroupExact(x: World, w: WorkerId, s: SocketId, g: GroupId, verdict: Reply)
    requires Inv(x) && CachesExact(x) && Possible(x, EnterGroup(w, s, g, verdict))
    ensures CachesExact(Step(x, EnterGroup(w, s, g, verdict)))
  {
    if s in x.locals[w].socketToUser && verdict == Done {
      EnterRoomExact(x, w, s, Group(g));
    } else {
      assert Step(x, EnterGroup(w, s, g, verdict)) == x;
    }
  }

  lemma ConnectExact(x: World, w: WorkerId, s: SocketId, token: Option<Token>)
    requires Inv(x) && CachesExact(x) && Possible(x, ConnectSocket(w, s, token))
    ensures CachesExact(Step(x, ConnectSocket(w, s, token)))
  {
    if MayConnect(x.db, token) {
      assert !WasAdmitted(x.shared.admitted, s);
      ConnectKeepsCaches(x, w, s, token.value.sub);
      assert Step(x, ConnectSocket(w, s, token)) == Connected(x, w, s, token.value.sub);
    } else {
      assert Step(x, ConnectSocket(w, s, token)) == x;
    }
  }

  /** Unless it admits the socket, a join changes rows only. */
  lemma RefusedJoinKeepsRooms(x: World, w: WorkerId, s: SocketId, id: RequestId)
    requires Possible(x, Join(w, s, id)) && JoinChat(x.db, NodeOf(x, w), s, id).2 != Done
    ensures Step(x, Join(w, s, id)).locals == x.locals && Step(x, Join(w, s, id)).shared == x.shared
  {
  }

  lemma JoinExact(x: World, w: WorkerId, s: SocketId, id: RequestId)
    requires Inv(x) && CachesExact(x) && Possible(x, Join(w, s, id))
    ensures CachesExact(Step(x, Join(w, s, id)))
  {
    var y := Step(x, Join(w, s, id));
    if JoinChat(x.db, NodeOf(x, w), s, id).2 == Done {
      EnterRoomExact(x, w, s, Chat(id));
      CacheIgnoresRows(WithNode(x, w, EnterRoom(NodeOf(x, w), s, Chat(id))), y);
    } else {
      RefusedJoinKeepsRooms(x, w, s, id);
      CacheIgnoresRows(x, y);
    }
  }

  lemma RowsExact(x: World, e: Event)
    requires CachesExact(x) && Possible(x, e) && !OnWorker(e)
    ensures CachesExact(Step(x, e))
  {
    CacheIgnoresRows(x, Step(x, e));
  }

  lemma EnterRoomExact(x: World, w: WorkerId, s: SocketId, room: Room)
    requires Inv(x) && CachesExact(x) && w in x.locals && s in x.locals[w].socketToUser
    ensures CachesExact(WithNode(x, w, EnterRoom(NodeOf(x, w), s, room)))
  {
    var y := WithNode(x, w, EnterRoom(NodeOf(x, w), s, room));
    EnterRoomIndexed(x, w, s, room);
    HeldAtHome(x, w, s);
    assert CachedRoom(x, s) == Get(x.locals[w].socketToRoom, s);
  }

  lemma LeaveRoomCaches(x: World, w: WorkerId, s: SocketId)
    requires Indexed(x) && w in x.locals && s in x.locals[w].socketToRoom
    ensures var y := WithNode(x, w, LeaveRoom(NodeOf(x, w), s));
            forall t :: CachedRoom(y, t) == if t == s then None else CachedRoom(x, t)
  {
    HeldAtHome(x, w, s);
  }

  lemma LeaveRoomExact(x: World, w: WorkerId, s: SocketId)
    requires Indexed(x) && CachesExact(x) && w in x.locals
    ensures CachesExact(WithNode(x, w, LeaveRoom(NodeOf(x, w), s)))
  {
    var y := WithNode(x, w, LeaveRoom(NodeOf(x, w), s));
    if s in x.locals[w].socketToRoom {
      var room := x.locals[w].socketToRoom[s];
      LeaveRoomCaches(x, w, s);
      HeldAtHome(x, w, s);
      assert CachedRoom(x, s) == Some(room);
      forall t, r: Room ensures CachedRoom(y, t) == Some(r) <==> (t, r) in y.shared.members {
        assert CachedRoom(x, t) == Some(r) <==> (t, r) in x.shared.members;
      }
    } else {
      assert y == x;
    }
  }

  lemma ClosingExact(x: World, e: Event)
    requires Inv(x) && CachesExact(x) && Possible(x, e)
    requires e.Remove? || e.BlockUser? || e.DeleteUser? || e.CloseGroup?
    ensures CachesExact(Step(x, e)) <==> ForcesOutLocally(x, e)
  {
    var y := Step(x, e);
    var rooms := RoomsClosedBy(x, e);
    var z := WithNode(x, e.w, CloseRooms(NodeOf(x, e.w), rooms));
    ClosingStep(x, e);
    CacheIgnoresRows(z, y);
    CloseExactIffLocal(x, e.w, rooms);
  }

  lemma ClosingStep(x: World, e: Event)
    requires Possible(x, e)
    requires e.Remove? || e.BlockUser? || e.DeleteUser? || e.CloseGroup?
    ensures Step(x, e) == WithNode(x, e.w, CloseRooms(NodeOf(x, e.w), RoomsClosedBy(x, e))).(db := Step(x, e).db)
  {
    var n := CloseRooms(NodeOf(x, e.w), {});
    assert n.local.socketToRoom == x.locals[e.w].socketToRoom && n.shared.members == x.shared.members;
    assert WithNode(x, e.w, n) == x;
  }

  lemma StepKeepsWorkers(x: World, e: Event)
    requires Possible(x, e)
    ensures Step(x, e).locals.Keys == x.locals.Keys
  {
    match e
    case Join(w, s, id) =>
    case Remove(w, id, u) =>
    case BlockUser(w, a, b) =>
    case DeleteUser(w, u) =>
    case _ =>
  }

  lemma AllOnOneWorker(x: World, w: WorkerId)
    requires Indexed(x) && MembersCached(x) && x.locals.Keys == {w}
    ensures forall m :: m in x.shared.members ==> Get(x.shared.home, m.0) == Some(w)
  {
    forall m | m in x.shared.members ensures Get(x.shared.home, m.0) == Some(w)
    {
      assert CachedRoom(x, m.0).Some?;
    }
  }

  lemma OneWorkerForcesLocally(x: World, e: Event, w: WorkerId)
    requires Inv(x) && x.locals.Keys == {w} && Possible(x, e)
    ensures ForcesOutLocally(x, e)
  {
    AllOnOneWorker(x, w);
    if ForcesNobody(e) {
      ForcesNobodyOut(x, e);
    } else {
      assert e.w == w;
    }
  }

  lemma {:induction false} OneWorkerStaysExact(x: World, es: seq<Event>, w: WorkerId)
    requires Inv(x) && CachesExact(x) && x.locals.Keys == {w} && PossibleRun(x, es)
    ensures CachesExact(Run(x, es)) && Run(x, es).locals.Keys == {w}
    decreases |es|
  {
    if es != [] {
      StepKeeps(x, es[0]);
      StepKeepsWorkers(x, es[0]);
      OneWorkerForcesLocally(x, es[0], w);
      StepExactIffLocal(x, es[0]);
      OneWorkerStaysExact(Step(x, es[0]), es[1..], w);
    }
  }

  /** With a single worker, after every run: a socket with a cached room is in exactly that room and
      a stroke reaches exactly the other sockets there; a socket in no room gets the error. */
  lemma OneWorkerRelaysExactly(x: World, w: WorkerId, users: map<UserId, User>, es: seq<Event>, s: SocketId)
    requires ReachedBy(x, {w}, users, es)
    ensures w in x.locals
    ensures var relay := Recipients(NodeOf(x, w), s);
            && (relay == None <==> forall r: Room :: (s, r) !in x.shared.members)
            && (forall r: Room :: (s, r) in x.shared.members ==>
                  relay == Some(set m | m in x.shared.members && m.1 == r && m.0 != s :: m.0))
  {
    RunKeeps(Start({w}, users), es);
    OneWorkerStaysExact(Start({w}, users), es, w);
    assert forall r: Room :: CachedRoom(x, s) == Some(r) <==> (s, r) in x.shared.members;
    if s in x.locals[w].socketToRoom {
      HeldAtHome(x, w, s);
      assert CachedRoom(x, s) == Some(x.locals[w].socketToRoom[s]);
    } else if s in x.shared.home {
      assert CachedRoom(x, s) == None;
    }
  }

  // ---------------------------------------------------------------------------
  // The socket registry
  // ---------------------------------------------------------------------------

  /** Redis and the holding worker agree on who a socket is; a user is registered exactly while its
      latest admitted socket is connected, under that socket; every other connected socket was told to go. */
  lemma RegistryTracksLatestSocket(x: World, u: UserId, s: SocketId)
    requires Reachable(x)
    ensures Get(x.shared.userSocket, u) == Some(s)
       <==>
           s in x.shared.home && Get(x.shared.socketUser, s) == Some(u) && LastAdmitted(x.shared.admitted, u) == Some(s)
    ensures s in x.shared.home && Get(x.shared.socketUser, s) == Some(u) && Get(x.shared.userSocket, u) != Some(s)
            ==> s in x.shared.ordered
    ensures Get(x.shared.userSocket, u) == Some(s) ==> s !in x.shared.ordered
    ensures forall w :: w in x.locals && s in x.locals[w].socketToUser ==>
                          Get(x.shared.home, s) == Some(w) &&
                              Get(x.shared.socketUser, s) == Some(x.locals[w].socketToUser[s])
  {
    ReachableIsInv(x);
  }

  /** Only a newer admitted socket or the disconnect of the registered one changes a user's entry:
      late disconnects of older sockets never erase it. */
  lemma EntryChangesOnlyByItsOwnSockets(x: World, e: Event, u: UserId)
    requires Reachable(x) && Possible(x, e)
    requires Get(Step(x, e).shared.userSocket, u) != Get(x.shared.userSocket, u)
    ensures if e.ConnectSocket? then MayConnect(x.db, e.token) && e.token.value.sub == u
            else e.DisconnectSocket? && Get(x.shared.userSocket, u) == Some(e.s)
  {
    match e
    case ConnectSocket(w, s, token) => ConnectKeepsOtherEntries(x, w, s, token, u);
    case DisconnectSocket(w, s) =>
      ReachableIsInv(x);
      DisconnectKeepsOtherEntries(x, w, s, u);
    case _ => OthersKeepRegistry(x, e);
  }

  lemma ConnectKeepsOtherEntries(x: World, w: WorkerId, s: SocketId, token: Option<Token>, u: UserId)
    requires w in x.locals
    ensures (MayConnect(x.db, token) && token.value.sub == u)
         || Get(Connect(x.db, NodeOf(x, w), w, s, token).shared.userSocket, u) == Get(x.shared.userSocket, u)
  {
  }

  lemma DisconnectKeepsOtherEntries(x: World, w: WorkerId, s: SocketId, u: UserId)
    requires Indexed(x) && Registered(x.shared) && w in x.locals && Get(x.shared.home, s) == Some(w)
    ensures Get(x.shared.userSocket, u) == Some(s)
         || Get(Disconnect(NodeOf(x, w), s).shared.userSocket, u) == Get(x.shared.userSocket, u)
  {
    HeldByHome(x, s);
  }

  lemma HeldByHome(x: World, s: SocketId)
    requires Indexed(x) && s in x.shared.home
    ensures x.shared.home[s] in x.locals && s in x.locals[x.shared.home[s]].socketToUser
    ensures Get(x.shared.socketUser, s) == Some(x.locals[x.shared.home[s]].socketToUser[s])
  {
    HeldAtHome(x, x.shared.home[s], s);
  }

  lemma OthersKeepRegistry(x: World, e: Event)
    requires Possible(x, e) && !e.ConnectSocket? && !e.DisconnectSocket?
    ensures Step(x, e).shared.userSocket == x.shared.userSocket
  {
    match e
    case Join(w, s, id) =>
    case Remove(w, id, u) =>
    case BlockUser(w, a, b) =>
    case DeleteUser(w, u) =>
    case _ =>
  }
}
