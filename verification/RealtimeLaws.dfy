/** What each handler of the gateway, the chat service and the users service does, told by the rows, the seats and the
    registry it leaves behind. */
module RealtimeLaws {
  import opened Common
  import opened RealtimeModel
  import opened RealtimeSafety
  import opened RealtimeTheorems

  // ---------------------------------------------------------------------------
  // Sockets
  // ---------------------------------------------------------------------------

  /** The token names an existing user who is not banned, in its current session version. */
  predicate GoodToken(x: World, token: Option<Token>) {
    && token.Some? && token.value.sub in x.db.users
    && x.db.users[token.value.sub] == User(false, token.value.sessionVersion)
  }

  /** A socket gets in exactly with a good token, and then belongs to its user everywhere; a refused one leaves no
      trace. */
  lemma ConnectionAdmitsIff(x: World, w: WorkerId, s: SocketId, token: Option<Token>)
    requires Reachable(x) && Possible(x, ConnectSocket(w, s, token))
    ensures var y := Step(x, ConnectSocket(w, s, token));
            && (s in y.shared.home <==> GoodToken(x, token))
            && (GoodToken(x, token) ==>
                  var u := token.value.sub;
                  && y.shared.home[s] == w && Get(y.shared.socketUser, s) == Some(u) &&
                      Get(y.shared.userSocket, u) == Some(s)
                  && w in y.locals && Get(y.locals[w].socketToUser, s) == Some(u)
                  && y.db == x.db && y.shared.members == x.shared.members
                  && forall v :: v != u ==> Get(y.shared.userSocket, v) == Get(x.shared.userSocket, v))
            && (!GoodToken(x, token) ==> y == x)
  {
    ReachableIsInv(x);
    assert !WasAdmitted(x.shared.admitted, s);
    assert GoodToken(x, token) <==> MayConnect(x.db, token);
    if !GoodToken(x, token) {
      assert Step(x, ConnectSocket(w, s, token)) == x;
    }
  }

  lemma DisconnectIndexes(n: Node, s: SocketId)
    requires n.shared.socketUser.Keys == n.shared.home.Keys && Registered(n.shared)
    requires s in n.local.socketToUser && Get(n.shared.socketUser, s) == Some(n.local.socketToUser[s])
    ensures var h, h' := n.shared, Disconnect(n, s).shared;
            && h'.home == h.home - {s} && h'.socketUser == h.socketUser - {s}
            && (forall u ::
                Get(h'.userSocket, u) == if Get(h.userSocket, u) == Some(s) then None else Get(h.userSocket, u))
            && (forall m :: m in h'.members <==> m in h.members && m.0 != s)
  {
    forall u | Get(n.shared.userSocket, u) == Some(s) ensures u == n.local.socketToUser[s] {
      assert u in n.shared.userSocket && Get(n.shared.socketUser, n.shared.userSocket[u]) == Some(u);
    }
  }

  /** A disconnected socket is known nowhere any more; nothing else changes. */
  lemma DisconnectForgets(x: World, w: WorkerId, s: SocketId)
    requires Reachable(x) && Possible(x, DisconnectSocket(w, s))
    ensures var y := Step(x, DisconnectSocket(w, s));
            && y.shared.home == x.shared.home - {s} && y.shared.socketUser == x.shared.socketUser - {s}
            && (forall u :: Get(y.shared.userSocket, u) ==
                  if Get(x.shared.userSocket, u) == Some(s) then None else Get(x.shared.userSocket, u))
            && (forall m :: m in y.shared.members <==> m in x.shared.members && m.0 != s)
            && (forall t :: CachedRoom(y, t) == if t == s then None else CachedRoom(x, t))
            && y.db == x.db
  {
    ReachableIsInv(x);
    HeldByHome(x, s);
    DisconnectIndexed(x, w, s);
    DisconnectIndexes(NodeOf(x, w), s);
  }

  lemma LeavingSeats(x: World, w: WorkerId, s: SocketId)
    requires Indexed(x) && MembersCached(x) && Get(x.shared.home, s) == Some(w) && w in x.locals
    ensures forall m :: m in LeaveRoom(NodeOf(x, w), s).shared.members <==> m in x.shared.members && m.0 != s
  {
    forall m | m in x.shared.members && m.0 == s ensures Get(x.locals[w].socketToRoom, s) == Some(m.1) {
      assert CachedRoom(x, m.0) == Some(m.1);
    }
  }

  /** Whoever leaves sits nowhere; all others keep their seats. */
  lemma LeavingFreesTheSeat(x: World, w: WorkerId, s: SocketId)
    requires Reachable(x) && Get(x.shared.home, s) == Some(w)
    ensures Possible(x, Leave(w, s))
    ensures var y := Step(x, Leave(w, s));
            && (forall m :: m in y.shared.members <==> m in x.shared.members && m.0 != s)
            && (forall t :: CachedRoom(y, t) == if t == s then None else CachedRoom(x, t))
            && y.shared.home == x.shared.home && y.db == x.db
  {
    ReachableIsInv(x);
    HeldByHome(x, s);
    LeavingSeats(x, w, s);
    if s in x.locals[w].socketToRoom {
      LeaveRoomCaches(x, w, s);
    } else {
      assert Step(x, Leave(w, s)) == x;
    }
  }

  /** Closing a group's room empties that room and no other. */
  lemma ClosingEmptiesTheRoom(x: World, w: WorkerId, g: GroupId)
    requires Possible(x, CloseGroup(w, g))
    ensures var y := Step(x, CloseGroup(w, g));
            && (forall m :: m in y.shared.members <==> m in x.shared.members && m.1 != Group(g))
            && y.shared.home == x.shared.home && y.db == x.db
  {
  }

  /** Removing a user from a group's room takes out the user's registered socket and nobody else. */
  lemma RemovalTakesOneOut(x: World, w: WorkerId, u: UserId, g: GroupId)
    requires Possible(x, RemoveFromGroup(w, u, g))
    ensures var y := Step(x, RemoveFromGroup(w, u, g));
            && (forall m :: m in y.shared.members <==>
                  m in x.shared.members && !(Get(x.shared.userSocket, u) == Some(m.0) && m.1 == Group(g)))
            && y.shared.home == x.shared.home && y.db == x.db
  {
    forall m | m in x.shared.members ensures m == (m.0, m.1) {
    }
  }

  // ---------------------------------------------------------------------------
  // Requests
  // ---------------------------------------------------------------------------

  /** Between the two stands a block, whoever made it. */
  predicate EitherBlocks(db: Db, a: UserId, b: UserId) {
    (a, b) in db.blocks || (b, a) in db.blocks
  }

  /** All rows are as before, but for the request. */
  ghost predicate OnlyRequest(db: Db, db': Db, id: RequestId) {
    && db'.users == db.users && db'.blocks == db.blocks
    && forall r :: r != id ==> Get(db'.requests, r) == Get(db.requests, r)
  }

  /** A request is made exactly by one user to another who exists, takes requests, and has no block or open request with
      the sender, and it is what was asked for. */
  lemma RequestIsMadeIff(x: World, id: RequestId, from: UserId, to: Option<UserId>, accepting: bool)
    requires Possible(x, Ask(id, from, to, accepting))
    ensures var (db, reply) := CreateRequest(x.db, from, to, accepting, id);
            && Step(x, Ask(id, from, to, accepting)) == x.(db := db)
            && (reply == Done <==>
                  && from in x.db.users && to.Some? && to.value in x.db.users && to.value != from
                  && accepting && !EitherBlocks(x.db, from, to.value)
                  && forall r :: r in x.db.requests ==> x.db.requests[r] != Request(from, to.value, Pending))
            && (reply == Done ==>
                OnlyRequest(x.db, db, id) && Get(db.requests, id) == Some(Request(from, to.value, Pending)))
            && (reply != Done ==> db == x.db)
  {
  }

  /** Only the recipient answers, once; a yes accepts, unless a block has come between, which discards; a no rejects. */
  lemma AnswerDecides(x: World, id: RequestId, u: UserId, accept: bool)
    ensures var (db, reply) := Respond(x.db, id, u, accept);
            var open := id in x.db.requests && x.db.requests[id].to == u && x.db.requests[id].status == Pending;
            var barred := open && accept && EitherBlocks(x.db, x.db.requests[id].from, u);
            && Possible(x, Answer(id, u, accept)) && Step(x, Answer(id, u, accept)) == x.(db := db)
            && (reply == Done <==> open && !barred)
            && (reply == Done ==> OnlyRequest(x.db, db, id)
                                  && Get(db.requests, id) ==
                                      Some(Request(x.db.requests[id].from, u, if accept then Accepted else Rejected)))
            && (barred ==> OnlyRequest(x.db, db, id) && id !in db.requests)
            && (!open ==> db == x.db)
  {
  }

  /** Only the sender takes back a request, and only an open one; then it is gone. */
  lemma WithdrawalRemoves(x: World, id: RequestId, u: UserId)
    ensures var (db, reply) := Cancel(x.db, id, u);
            && Possible(x, Withdraw(id, u)) && Step(x, Withdraw(id, u)) == x.(db := db)
            && (reply == Done <==>
                id in x.db.requests && x.db.requests[id].from == u && x.db.requests[id].status == Pending)
            && (reply == Done ==> OnlyRequest(x.db, db, id) && id !in db.requests)
            && (reply != Done ==> db == x.db)
  {
  }

  /** Either participant ends an accepted chat: the request is gone, its room empty, all other seats kept. */
  lemma RemovalEndsTheChat(x: World, w: WorkerId, id: RequestId, u: UserId)
    requires Possible(x, Remove(w, id, u))
    ensures var y, reply := Step(x, Remove(w, id, u)), RemoveChat(x.db, NodeOf(x, w), id, u).2;
            && (reply == Done <==>
                  && id in x.db.requests && x.db.requests[id].status == Accepted
                  && (u == x.db.requests[id].from || u == x.db.requests[id].to))
            && (reply == Done ==>
                  && OnlyRequest(x.db, y.db, id) && id !in y.db.requests
                  && forall m :: m in y.shared.members <==> m in x.shared.members && m.1 != Chat(id))
            && (reply != Done ==> y == x)
  {
    if RemoveChat(x.db, NodeOf(x, w), id, u).2 != Done {
      assert Step(x, Remove(w, id, u)) == x;
    }
  }

  /** Admission asks for the request alone: it changes no row but a blocked pair's, which goes. */
  lemma AdmissionDiscardsOnlyBlocked(db: Db, id: RequestId, u: UserId)
    ensures var db' := AdmitToChat(db, id, u).0;
            var discards := && id in db.requests && db.requests[id].status == Accepted
                            && (u == db.requests[id].from || u == db.requests[id].to)
                            && EitherBlocks(db, db.requests[id].from, db.requests[id].to);
            if discards then OnlyRequest(db, db', id) && id !in db'.requests else db' == db
  {
  }

  // ---------------------------------------------------------------------------
  // Blocks and accounts
  // ---------------------------------------------------------------------------

  /** An accepted chat between the two. */
  predicate ChatBetween(db: Db, room: Room, a: UserId, b: UserId) {
    && room.Chat? && room.request in db.requests && db.requests[room.request].status == Accepted
    && {db.requests[room.request].from, db.requests[room.request].to} == {a, b}
  }

  /** A block is recorded for the caller's direction only, and empties the pair's rooms and no other. */
  lemma BlockIsRecorded(x: World, w: WorkerId, a: UserId, b: UserId)
    requires Reachable(x) && Possible(x, BlockUser(w, a, b))
    ensures var y, reply := Step(x, BlockUser(w, a, b)), Block(x.db, NodeOf(x, w), a, b).2;
            && (reply == Done <==> a != b && a in x.db.users && b in x.db.users)
            && (reply == Done ==>
                  && y.db == x.db.(blocks := x.db.blocks + {(a, b)})
                  && forall m :: m in y.shared.members <==> m in x.shared.members && !ChatBetween(x.db, m.1, a, b))
            && (reply != Done ==> y == x)
  {
    ReachableIsInv(x);
    if Block(x.db, NodeOf(x, w), a, b).2 != Done {
      assert Step(x, BlockUser(w, a, b)) == x;
    } else if (a, b) in x.db.blocks {
      assert Step(x, BlockUser(w, a, b)) == x && x.db.blocks + {(a, b)} == x.db.blocks;
      BlockedPairIsOut(x, a, b);
    } else {
      NewBlockCloses(x, w, a, b);
    }
  }

  lemma BlockedPairIsOut(x: World, a: UserId, b: UserId)
    requires Inv(x) && (a, b) in x.db.blocks
    ensures forall m :: m in x.shared.members ==> !ChatBetween(x.db, m.1, a, b)
  {
    forall m | m in x.shared.members ensures !ChatBetween(x.db, m.1, a, b) {
      if m.1.Chat? {
        assert m == (m.0, m.1);
        MemberEntitled(x, m.0, m.1.request);
        PairsAreEqual(x.db, m.1, a, b);
      }
    }
  }

  lemma NewBlockCloses(x: World, w: WorkerId, a: UserId, b: UserId)
    requires w in x.locals && a != b && a in x.db.users && b in x.db.users && (a, b) !in x.db.blocks
    ensures var y := Step(x, BlockUser(w, a, b));
            && y.db == x.db.(blocks := x.db.blocks + {(a, b)})
            && forall m :: m in y.shared.members <==> m in x.shared.members && !ChatBetween(x.db, m.1, a, b)
  {
    forall r: Room ensures r in RoomsBetween(x.db, a, b) <==> ChatBetween(x.db, r, a, b) {
      PairsAreEqual(x.db, r, a, b);
    }
  }

  lemma PairsAreEqual(db: Db, room: Room, a: UserId, b: UserId)
    ensures room in RoomsBetween(db, a, b) <==> ChatBetween(db, room, a, b)
  {
    if room.Chat? && room.request in db.requests {
      var q := db.requests[room.request];
      assert {q.from, q.to} == {a, b} <==> (q.from == a && q.to == b) || (q.from == b && q.to == a) by {
        if {q.from, q.to} == {a, b} {
          assert q.from in {a, b} && q.to in {a, b} && a in {q.from, q.to} && b in {q.from, q.to};
        }
      }
    }
  }

  /** Unblocking takes back the caller's own block; one in the other direction stays. */
  lemma UnblockIsOneWay(x: World, a: UserId, b: UserId)
    ensures Possible(x, UnblockUser(a, b))
    ensures var y := Step(x, UnblockUser(a, b));
            && (forall p :: p in y.db.blocks <==> p in x.db.blocks && p != (a, b))
            && y == x.(db := x.db.(blocks := y.db.blocks))
  {
  }

  /** An account takes along its row, its requests, its blocks in both directions, and the seats in its chats, and
      nothing of anybody else's. */
  lemma DeletionTakesItsOwn(x: World, w: WorkerId, u: UserId)
    requires Possible(x, DeleteUser(w, u)) && u in x.db.users
    ensures var y := Step(x, DeleteUser(w, u));
            && y.db.users == x.db.users - {u}
            && (forall r :: Get(y.db.requests, r) ==
                  if r in x.db.requests && (x.db.requests[r].from == u || x.db.requests[r].to == u) then None
                  else Get(x.db.requests, r))
            && (forall p :: p in y.db.blocks <==> p in x.db.blocks && p.0 != u && p.1 != u)
            && (forall m :: m in y.shared.members <==>
                  m in x.shared.members && !(exists v :: ChatBetween(x.db, m.1, u, v)))
  {
    forall room: Room ensures room in RoomsOf(x.db, u) <==> exists v :: ChatBetween(x.db, room, u, v) {
      if room in RoomsOf(x.db, u) {
        var q := x.db.requests[room.request];
        var v := if q.from == u then q.to else q.from;
        assert {q.from, q.to} == {u, v};
        assert ChatBetween(x.db, room, u, v);
      }
      if v :| ChatBetween(x.db, room, u, v) {
        var q := x.db.requests[room.request];
        assert u in {q.from, q.to};
      }
    }
  }
}
