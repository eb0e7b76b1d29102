/** Sockets, rooms, chat requests, blocks and accounts as values, and what each handler of the draw
    gateway, the chat service and the users service does to them. One handler is one atomic step.
    Any number of workers: `Local` is what one gateway process caches, `Shared` is what Socket.IO
    (with its Redis adapter) and Redis hold for the whole cluster. */
module RealtimeModel {
  import opened Common

  /** `chat:<id>` and `group:<id>`. */
  datatype Room = Chat(request: RequestId) | Group(group: GroupId)

  datatype Status = Pending | Accepted | Rejected
  datatype Request = Request(from: UserId, to: UserId, status: Status)
  datatype User = User(banned: bool, sessionVersion: nat)
  datatype Token = Token(sub: UserId, sessionVersion: nat)

  datatype Reply = Done | NotFound | Forbidden | BadRequest | Unauthorized | ConstraintViolation

  /** The rows the handlers read and write. `issued` is history: every request id ever handed out. */
  datatype Db = Db(
    users: map<UserId, User>,
    requests: map<RequestId, Request>,
    blocks: set<(UserId, UserId)>,
    issued: set<RequestId>)

  datatype Local = Local(socketToUser: map<SocketId, UserId>, socketToRoom: map<SocketId, Room>)

  /** `ordered` are the sockets that were told to disconnect; `admitted` is history. */
  datatype Shared = Shared(
    home: map<SocketId, WorkerId>,
    members: set<(SocketId, Room)>,
    userSocket: map<UserId, SocketId>,
    socketUser: map<SocketId, UserId>,
    ordered: set<SocketId>,
    admitted: seq<(UserId, SocketId)>)

  /** What a handler running on one worker can see of the realtime state. */
  datatype Node = Node(local: Local, shared: Shared)

  // ---------------------------------------------------------------------------
  // Gateway
  // ---------------------------------------------------------------------------

  predicate MayConnect(db: Db, token: Option<Token>) {
    && token.Some?
    && token.value.sub in db.users
    && !db.users[token.value.sub].banned
    && db.users[token.value.sub].sessionVersion == token.value.sessionVersion
  }

  /** The newest socket becomes the user's entry; the one it replaces is told to disconnect. */
  function Enlist(h: Shared, w: WorkerId, u: UserId, s: SocketId): Shared {
    var previous := Get(h.userSocket, u);
    h.(
      home := h.home[s := w],
      ordered := if previous.Some? && previous.value != s then h.ordered + {previous.value} else h.ordered,
      userSocket := h.userSocket[u := s],
      socketUser := h.socketUser[s := u],
      admitted := h.admitted + [(u, s)])
  }

  function Connect(db: Db, n: Node, w: WorkerId, s: SocketId, token: Option<Token>): Node {
    if !MayConnect(db, token) then n
    else
      var u := token.value.sub;
      Node(n.local.(socketToUser := n.local.socketToUser[s := u]), Enlist(n.shared, w, u, s))
  }

  /** Socket.IO drops the socket from its rooms; the handler then clears what the gateway knows of it. */
  function Disconnect(n: Node, s: SocketId): Node {
    var left := n.shared.(home := n.shared.home - {s}, members := set m | m in n.shared.members && m.0 != s);
    if s !in n.local.socketToUser then n.(shared := left)
    else
      var u := n.local.socketToUser[s];
      Node(
        Local(n.local.socketToUser - {s}, n.local.socketToRoom - {s}),
        left.(
          userSocket := if Get(left.userSocket, u) == Some(s) then left.userSocket - {u} else left.userSocket,
          socketUser := left.socketUser - {s}))
  }

  /** Leave the cached room, if it is another one, then join. */
  function EnterRoom(n: Node, s: SocketId, room: Room): Node {
    var previous := Get(n.local.socketToRoom, s);
    var kept := if previous.Some? && previous.value != room then n.shared.members - {(s, previous.value)}
        else n.shared.members;
    Node(
      n.local.(socketToRoom := n.local.socketToRoom[s := room]),
      n.shared.(members := kept + {(s, room)}))
  }

  function LeaveRoom(n: Node, s: SocketId): Node {
    if s !in n.local.socketToRoom then n
    else
      Node(
        n.local.(socketToRoom := n.local.socketToRoom - {s}),
        n.shared.(members := n.shared.members - {(s, n.local.socketToRoom[s])}))
  }

  /** Every socket leaves the given rooms, cluster-wide; this worker forgets its own cache entries. */
  function CloseRooms(n: Node, rooms: set<Room>): Node {
    Node(
      n.local.(socketToRoom := map s | s in n.local.socketToRoom
                 && !(n.local.socketToRoom[s] in rooms && (s, n.local.socketToRoom[s]) in n.shared.members)
                 :: n.local.socketToRoom[s]),
      n.shared.(members := set m | m in n.shared.members && m.1 !in rooms))
  }

  /** One socket leaves the room, cluster-wide; this worker forgets the room if it has it cached. */
  function Evicted(n: Node, s: SocketId, room: Room): Node {
    var cached := n.local.socketToRoom;
    Node(
      n.local.(socketToRoom := if Get(cached, s) == Some(room) then cached - {s} else cached),
      n.shared.(members := n.shared.members - {(s, room)}))
  }

  /** The registered socket of u leaves the room. */
  function ForceRemove(n: Node, u: UserId, room: Room): Node {
    if u !in n.shared.userSocket then n else Evicted(n, n.shared.userSocket[u], room)
  }

  /** Who receives a stroke, emote or clear sent by s; None is the "Not in a room" error. */
  function Recipients(n: Node, s: SocketId): Option<set<SocketId>> {
    if s !in n.local.socketToRoom then None
    else Some(set m | m in n.shared.members && m.1 == n.local.socketToRoom[s] && m.0 != s :: m.0)
  }

  // ---------------------------------------------------------------------------
  // Chat requests and blocks
  // ---------------------------------------------------------------------------

  predicate Blocked(db: Db, a: UserId, b: UserId) {
    (a, b) in db.blocks || (b, a) in db.blocks
  }

  predicate Participant(q: Request, u: UserId) {
    u == q.from || u == q.to
  }

  /** `to` is the user found by display name, `accepting` whether that user is public or searchable. */
  function CreateRequest(db: Db, from: UserId, to: Option<UserId>, accepting: bool, id: RequestId): (Db, Reply) {
    if from !in db.users then (db, NotFound)
    else if to.None? then (db, NotFound)
    else if to.value == from then (db, BadRequest)
    else if Blocked(db, from, to.value) then (db, Forbidden)
    else if !accepting then (db, Forbidden)
    else if exists r :: r in db.requests && db.requests[r] == Request(from, to.value, Pending) then (db, BadRequest)
    else if to.value !in db.users then (db, ConstraintViolation)
    else (db.(requests := db.requests[id := Request(from, to.value, Pending)], issued := db.issued + {id}), Done)
  }

  function Respond(db: Db, id: RequestId, responder: UserId, accept: bool): (Db, Reply) {
    if id !in db.requests then (db, NotFound)
    else
      var q := db.requests[id];
      if q.to != responder then (db, Forbidden)
      else if q.status != Pending then (db, BadRequest)
      else if accept && Blocked(db, q.from, q.to) then (db.(requests := db.requests - {id}), Forbidden)
      else (db.(requests := db.requests[id := q.(status := if accept then Accepted else Rejected)]), Done)
  }

  function Cancel(db: Db, id: RequestId, u: UserId): (Db, Reply) {
    if id !in db.requests then (db, NotFound)
    else if db.requests[id].from != u then (db, Forbidden)
    else if db.requests[id].status != Pending then (db, BadRequest)
    else (db.(requests := db.requests - {id}), Done)
  }

  /** May u enter the room of request id? A blocked pair loses the request instead. */
  function AdmitToChat(db: Db, id: RequestId, u: UserId): (Db, Reply) {
    if id !in db.requests then (db, NotFound)
    else
      var q := db.requests[id];
      if !Participant(q, u) then (db, Forbidden)
      else if q.status != Accepted then (db, Forbidden)
      else if Blocked(db, q.from, q.to) then (db.(requests := db.requests - {id}), Forbidden)
      else (db, Done)
  }

  function JoinChat(db: Db, n: Node, s: SocketId, id: RequestId): (Db, Node, Reply) {
    if s !in n.local.socketToUser then (db, n, Unauthorized)
    else
      var (db', reply) := AdmitToChat(db, id, n.local.socketToUser[s]);
      if reply == Done then (db', EnterRoom(n, s, Chat(id)), Done) else (db', n, reply)
  }

  /** `verdict` is the answer of the group membership query. */
  function JoinGroup(n: Node, s: SocketId, g: GroupId, verdict: Reply): (Node, Reply) {
    if s !in n.local.socketToUser then (n, Unauthorized)
    else if verdict != Done then (n, verdict)
    else (EnterRoom(n, s, Group(g)), Done)
  }

  function RemoveChat(db: Db, n: Node, id: RequestId, u: UserId): (Db, Node, Reply) {
    if id !in db.requests then (db, n, NotFound)
    else if !Participant(db.requests[id], u) then (db, n, Forbidden)
    else if db.requests[id].status != Accepted then (db, n, BadRequest)
    else (db.(requests := db.requests - {id}), CloseRooms(n, {Chat(id)}), Done)
  }

  function RoomsBetween(db: Db, a: UserId, b: UserId): set<Room> {
    set r | r in db.requests && db.requests[r].status == Accepted
            && ((db.requests[r].from == a && db.requests[r].to == b) ||
                (db.requests[r].from == b && db.requests[r].to == a))
         :: Chat(r)
  }

  function RoomsOf(db: Db, u: UserId): set<Room> {
    set r | r in db.requests && db.requests[r].status == Accepted && Participant(db.requests[r], u) :: Chat(r)
  }

  function Block(db: Db, n: Node, a: UserId, b: UserId): (Db, Node, Reply) {
    if a == b then (db, n, BadRequest)
    else if b !in db.users then (db, n, NotFound)
    else if (a, b) in db.blocks then (db, n, Done)
    else if a !in db.users then (db, n, ConstraintViolation)
    else (db.(blocks := db.blocks + {(a, b)}), CloseRooms(n, RoomsBetween(db, a, b)), Done)
  }

  function Unblock(db: Db, a: UserId, b: UserId): Db {
    db.(blocks := db.blocks - {(a, b)})
  }

  /** The row of u goes, and with it, by ON DELETE CASCADE, its requests and its blocks. */
  function WithoutUser(db: Db, u: UserId): Db {
    db.(
      users := db.users - {u},
      requests := map r | r in db.requests && !Participant(db.requests[r], u) :: db.requests[r],
      blocks := set p | p in db.blocks && p.0 != u && p.1 != u)
  }

  function DeleteAccount(db: Db, n: Node, u: UserId): (Db, Node, Reply) {
    if u !in db.users then (db, n, NotFound)
    else (WithoutUser(db, u), CloseRooms(n, RoomsOf(db, u)), Done)
  }

  // ---------------------------------------------------------------------------
  // The cluster
  // ---------------------------------------------------------------------------

  datatype World = World(locals: map<WorkerId, Local>, shared: Shared, db: Db)

  datatype Event =
    | ConnectSocket(w: WorkerId, s: SocketId, token: Option<Token>)
    | DisconnectSocket(w: WorkerId, s: SocketId)
    | Join(w: WorkerId, s: SocketId, id: RequestId)
    | EnterGroup(w: WorkerId, s: SocketId, g: GroupId, verdict: Reply)
    | Leave(w: WorkerId, s: SocketId)
    | Ask(id: RequestId, from: UserId, to: Option<UserId>, accepting: bool)
    | Answer(id: RequestId, u: UserId, accept: bool)
    | Withdraw(id: RequestId, u: UserId)
    | Remove(w: WorkerId, id: RequestId, u: UserId)
    | BlockUser(w: WorkerId, a: UserId, b: UserId)
    | UnblockUser(a: UserId, b: UserId)
    | DeleteUser(w: WorkerId, u: UserId)
    | SaveUser(u: UserId, row: User)
    | CloseGroup(w: WorkerId, g: GroupId)
    | RemoveFromGroup(w: WorkerId, u: UserId, g: GroupId)

  predicate OnWorker(e: Event) {
    !(e.Ask? || e.Answer? || e.Withdraw? || e.UnblockUser? || e.SaveUser?)
  }

  function NodeOf(x: World, w: WorkerId): Node
    requires w in x.locals
  {
    Node(x.locals[w], x.shared)
  }

  function WithNode(x: World, w: WorkerId, n: Node): World {
    x.(locals := x.locals[w := n.local], shared := n.shared)
  }

  /** Fresh ids for new sockets and requests; a socket's events reach the worker that holds it. */
  ghost predicate Possible(x: World, e: Event) {
    && (OnWorker(e) ==> e.w in x.locals)
    && (match e
        case ConnectSocket(w, s, token) => forall i :: 0 <= i < |x.shared.admitted| ==> x.shared.admitted[i].1 != s
        case DisconnectSocket(w, s) => s in x.shared.home && x.shared.home[s] == w
        case Join(w, s, id) => s in x.shared.home ==> x.shared.home[s] == w
        case EnterGroup(w, s, g, verdict) => s in x.shared.home ==> x.shared.home[s] == w
        case Leave(w, s) => s in x.shared.home ==> x.shared.home[s] == w
        case Ask(id, from, to, accepting) => id !in x.db.issued
        case _ => true)
  }

  ghost function Step(x: World, e: Event): World
    requires Possible(x, e)
  {
    match e
    case ConnectSocket(w, s, token) => WithNode(x, w, Connect(x.db, NodeOf(x, w), w, s, token))
    case DisconnectSocket(w, s) => WithNode(x, w, Disconnect(NodeOf(x, w), s))
    case Join(w, s, id) => var (db, n, _) := JoinChat(x.db, NodeOf(x, w), s, id); WithNode(x, w, n).(db := db)
    case EnterGroup(w, s, g, verdict) => WithNode(x, w, JoinGroup(NodeOf(x, w), s, g, verdict).0)
    case Leave(w, s) => WithNode(x, w, LeaveRoom(NodeOf(x, w), s))
    case Ask(id, from, to, accepting) => x.(db := CreateRequest(x.db, from, to, accepting, id).0)
    case Answer(id, u, accept) => x.(db := Respond(x.db, id, u, accept).0)
    case Withdraw(id, u) => x.(db := Cancel(x.db, id, u).0)
    case Remove(w, id, u) => var (db, n, _) := RemoveChat(x.db, NodeOf(x, w), id, u); WithNode(x, w, n).(db := db)
    case BlockUser(w, a, b) => var (db, n, _) := Block(x.db, NodeOf(x, w), a, b); WithNode(x, w, n).(db := db)
    case UnblockUser(a, b) => x.(db := Unblock(x.db, a, b))
    case DeleteUser(w, u) => var (db, n, _) := DeleteAccount(x.db, NodeOf(x, w), u); WithNode(x, w, n).(db := db)
    case SaveUser(u, row) => x.(db := x.db.(users := x.db.users[u := row]))
    case CloseGroup(w, g) => WithNode(x, w, CloseRooms(NodeOf(x, w), {Group(g)}))
    case RemoveFromGroup(w, u, g) => WithNode(x, w, ForceRemove(NodeOf(x, w), u, Group(g)))
  }

  ghost predicate PossibleRun(x: World, es: seq<Event>)
    decreases |es|
  {
    es == [] || (Possible(x, es[0]) && PossibleRun(Step(x, es[0]), es[1..]))
  }

  ghost function Run(x: World, es: seq<Event>): World
    requires PossibleRun(x, es)
    decreases |es|
  {
    if es == [] then x else Run(Step(x, es[0]), es[1..])
  }

  /** Workers up, nobody connected, no requests and no blocks. */
  function Start(workers: set<WorkerId>, users: map<UserId, User>): World {
    World(map w | w in workers :: Local(map[], map[]),
          Shared(map[], {}, map[], map[], {}, []),
          Db(users, map[], {}, {}))
  }
}
