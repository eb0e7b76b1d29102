/** Consent over whole runs: nobody gets into a chat that the person asked has not accepted, and a request that was
    declined, withdrawn or ended never lets anybody in again. */
module RealtimeConsent {
  import opened Common
  import opened RealtimeModel
  import opened RealtimeSafety
  import opened RealtimeTheorems

  /** The run makes this request, and the service says so. */
  ghost predicate Asked(x: World, es: seq<Event>, id: RequestId, from: UserId, to: UserId)
    requires PossibleRun(x, es)
    decreases |es|
  {
    es != [] && (AskedNow(x, es[0], id, from, to) || Asked(Step(x, es[0]), es[1..], id, from, to))
  }

  predicate AskedNow(x: World, e: Event, id: RequestId, from: UserId, to: UserId) {
    e.Ask? && e.id == id && e.from == from && e.to == Some(to) &&
        CreateRequest(x.db, from, e.to, e.accepting, id).1 == Done
  }

  /** The run answers this request with a yes of this user, and the service says so. */
  ghost predicate SaidYes(x: World, es: seq<Event>, id: RequestId, u: UserId)
    requires PossibleRun(x, es)
    decreases |es|
  {
    es != [] && (SaidYesNow(x, es[0], id, u) || SaidYes(Step(x, es[0]), es[1..], id, u))
  }

  predicate SaidYesNow(x: World, e: Event, id: RequestId, u: UserId) {
    e == Answer(id, u, true) && Respond(x.db, id, u, true).1 == Done
  }

  predicate Between(x: World, id: RequestId, from: UserId, to: UserId) {
    id in x.db.requests && x.db.requests[id].from == from && x.db.requests[id].to == to
  }

  /** Where a request and its acceptance come from. */
  lemma StepNeedsConsent(x: World, e: Event, id: RequestId, from: UserId, to: UserId)
    requires Possible(x, e) && Between(Step(x, e), id, from, to)
    ensures Between(x, id, from, to) || AskedNow(x, e, id, from, to)
    ensures Step(x, e).db.requests[id].status == Accepted ==>
              (Between(x, id, from, to) && x.db.requests[id].status == Accepted) || SaidYesNow(x, e, id, to)
  {
    match e
    case Ask(_, _, _, _) =>
    case Answer(_, _, _) =>
    case Withdraw(_, _) =>
    case Join(_, _, _) =>
    case Remove(_, _, _) =>
    case BlockUser(_, _, _) =>
    case DeleteUser(_, _) =>
    case _ => assert Step(x, e).db.requests == x.db.requests;
  }

  lemma {:induction false} RunNeedsConsent(x: World, es: seq<Event>, id: RequestId, from: UserId, to: UserId)
    requires PossibleRun(x, es) && Between(Run(x, es), id, from, to)
    ensures Between(x, id, from, to) || Asked(x, es, id, from, to)
    ensures Run(x, es).db.requests[id].status == Accepted ==>
              (Between(x, id, from, to) && x.db.requests[id].status == Accepted) || SaidYes(x, es, id, to)
    decreases |es|
  {
    if es != [] {
      RunNeedsConsent(Step(x, es[0]), es[1..], id, from, to);
      if Between(Step(x, es[0]), id, from, to) {
        StepNeedsConsent(x, es[0], id, from, to);
      }
    }
  }

  /** Whoever sits in a 1-on-1 room is one of two users of whom the one asked the other in this run, and the other
      said yes. */
  lemma RoomsNeedConsent(workers: set<WorkerId>, users: map<UserId, User>, es: seq<Event>, s: SocketId, id: RequestId)
    requires PossibleRun(Start(workers, users), es) && (s, Chat(id)) in Run(Start(workers, users), es).shared.members
    ensures var x0 := Start(workers, users);
            var x := Run(x0, es);
            && id in x.db.requests && s in x.shared.socketUser
            && var q := x.db.requests[id];
               && (x.shared.socketUser[s] == q.from || x.shared.socketUser[s] == q.to)
               && Asked(x0, es, id, q.from, q.to) && SaidYes(x0, es, id, q.to)
  {
    var x0 := Start(workers, users);
    var x := Run(x0, es);
    assert ReachedBy(x, workers, users, es);
    RoomsHoldOnlyEntitled(x, s, id);
    RunNeedsConsent(x0, es, id, x.db.requests[id].from, x.db.requests[id].to);
  }

  /** In every reached state an accepted request was made by its sender and accepted by its recipient. */
  lemma AcceptedNeedsConsent(workers: set<WorkerId>, users: map<UserId, User>, es: seq<Event>, id: RequestId)
    requires PossibleRun(Start(workers, users), es)
    requires id in Run(Start(workers, users), es).db.requests
    requires Run(Start(workers, users), es).db.requests[id].status == Accepted
    ensures var x0, q := Start(workers, users), Run(Start(workers, users), es).db.requests[id];
            Asked(x0, es, id, q.from, q.to) && SaidYes(x0, es, id, q.to)
  {
    var q := Run(Start(workers, users), es).db.requests[id];
    RunNeedsConsent(Start(workers, users), es, id, q.from, q.to);
  }

  // ---------------------------------------------------------------------------
  // Requests that are over
  // ---------------------------------------------------------------------------

  /** Made once, and now rejected or gone. */
  predicate Over(x: World, id: RequestId) {
    id in x.db.issued && (id in x.db.requests ==> x.db.requests[id].status == Rejected)
  }

  lemma StepStaysOver(x: World, e: Event, id: RequestId)
    requires Possible(x, e) && Over(x, id)
    ensures Over(Step(x, e), id)
  {
    match e
    case Ask(_, _, _, _) =>
    case Answer(_, _, _) =>
    case Withdraw(_, _) =>
    case Join(_, _, _) =>
    case Remove(_, _, _) =>
    case BlockUser(_, _, _) =>
    case DeleteUser(_, _) =>
    case _ => assert Step(x, e).db.requests == x.db.requests && Step(x, e).db.issued == x.db.issued;
  }

  lemma {:induction false} RunStaysOver(x: World, es: seq<Event>, id: RequestId)
    requires PossibleRun(x, es) && Over(x, id)
    ensures Over(Run(x, es), id)
    decreases |es|
  {
    if es != [] {
      StepStaysOver(x, es[0], id);
      RunStaysOver(Step(x, es[0]), es[1..], id);
    }
  }

  /** No run ever admits anybody to it again. */
  lemma OverAdmitsNobody(x: World, es: seq<Event>, id: RequestId, u: UserId, s: SocketId)
    requires Inv(x) && PossibleRun(x, es) && Over(x, id)
    ensures !Entitled(Run(x, es).db, id, u) && AdmitToChat(Run(x, es).db, id, u).1 != Done
    ensures (s, Chat(id)) !in Run(x, es).shared.members
  {
    RunKeeps(x, es);
    RunStaysOver(x, es, id);
    if (s, Chat(id)) in Run(x, es).shared.members {
      MemberEntitled(Run(x, es), s, id);
    }
  }

  /** The event ends the request: a no of the recipient, a withdrawal, the removal of the chat. */
  ghost predicate Ends(x: World, e: Event, id: RequestId)
    requires Possible(x, e)
  {
    || (exists u :: e == Answer(id, u, false) && Respond(x.db, id, u, false).1 == Done)
    || (exists u :: e == Withdraw(id, u) && Cancel(x.db, id, u).1 == Done)
    || (exists w, u :: e == Remove(w, id, u) && RemoveChat(x.db, NodeOf(x, w), id, u).2 == Done)
  }

  /** After a decline, a withdrawal or a removal no later run has anybody entitled to the chat or in its room. */
  lemma EndedForGood(x: World, e: Event, es: seq<Event>, id: RequestId, u: UserId, s: SocketId)
    requires Reachable(x) && Possible(x, e) && Ends(x, e, id) && PossibleRun(Step(x, e), es)
    ensures !Entitled(Run(Step(x, e), es).db, id, u) && AdmitToChat(Run(Step(x, e), es).db, id, u).1 != Done
    ensures (s, Chat(id)) !in Run(Step(x, e), es).shared.members
  {
    ReachableIsInv(x);
    StepKeeps(x, e);
    EndingIsOver(x, e, id);
    OverAdmitsNobody(Step(x, e), es, id, u, s);
  }

  lemma EndingIsOver(x: World, e: Event, id: RequestId)
    requires Inv(x) && Possible(x, e) && Ends(x, e, id)
    ensures Over(Step(x, e), id)
  {
    assert id in x.db.requests && id in x.db.issued;
  }
}
