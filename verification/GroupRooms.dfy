/** Entering a group's room: the gateway asks the chat service for membership. */
module GroupRooms {
  import opened Common
  import opened GroupModel
  import opened GroupSafety
  import RealtimeModel
  import RealtimeSafety
  import RealtimeTheorems

  function VerdictOf(reply: Reply): RealtimeModel.Reply {
    match reply
    case Done => RealtimeModel.Done
    case NotFound => RealtimeModel.NotFound
    case _ => RealtimeModel.Forbidden
  }

  /** Membership comes from being the creator or from the creator's invitation. */
  lemma MembersStanding(es: seq<Event>, g: GroupId, u: UserId)
    requires PossibleRun(EMPTY, es)
    ensures var t := Run(EMPTY, es);
            && (RoomForMember(t, g, u) == Done <==> (g, u) in t.members)
            && ((g, u) in t.members ==>
                g in t.groups && (u == t.groups[g] || exists i :: AcceptedFromOwner(t, i, g, u)))
  {
    RunKeeps(EMPTY, es);
    OneOwnerPerGroup(es, g, u);
    var t := Run(EMPTY, es);
    if (g, u) in t.members {
      assert (g, u).0 in t.groups;
      if t.members[(g, u)] == Member {
        MembershipIsInvited(es, g, u);
      }
    }
  }

  lemma GroupRoomEntered(x: RealtimeModel.World, w: WorkerId, s: SocketId, g: GroupId, verdict: RealtimeModel.Reply)
    requires RealtimeSafety.Inv(x) && Get(x.shared.home, s) == Some(w)
    ensures w in x.locals
    ensures var (n, reply) := RealtimeModel.JoinGroup(RealtimeModel.NodeOf(x, w), s, g, verdict);
            && reply == verdict
            && (verdict == RealtimeModel.Done ==> forall r :: (s, r) in n.shared.members <==>
                r == RealtimeModel.Group(g))
            && (verdict != RealtimeModel.Done ==> n == RealtimeModel.NodeOf(x, w))
            && (forall c, r :: c != s ==> ((c, r) in n.shared.members <==> (c, r) in x.shared.members))
  {
    RealtimeTheorems.HeldByHome(x, s);
    RealtimeSafety.EnterRoomMembers(x, w, s, RealtimeModel.Group(g));
  }

  /** A connected socket gets into the room exactly if its user is a member of the group, which takes an invitation
      from the creator or being it; then it is in no other room, and nobody else has moved. */
  lemma JoinGroupAdmitsExactlyMembers(x: RealtimeModel.World, w: WorkerId, s: SocketId, es: seq<Event>, g: GroupId)
    requires RealtimeTheorems.Reachable(x) && Get(x.shared.home, s) == Some(w) && s in x.shared.socketUser
    requires PossibleRun(EMPTY, es)
    ensures w in x.locals
    ensures var t, u := Run(EMPTY, es), x.shared.socketUser[s];
            var (n, reply) := RealtimeModel.JoinGroup(RealtimeModel.NodeOf(x, w), s, g,
                VerdictOf(RoomForMember(t, g, u)));
            && (reply == RealtimeModel.Done <==> (g, u) in t.members)
            && (reply == RealtimeModel.Done ==>
                  && g in t.groups && (u == t.groups[g] || exists i :: AcceptedFromOwner(t, i, g, u))
                  && forall r :: (s, r) in n.shared.members <==> r == RealtimeModel.Group(g))
            && (reply != RealtimeModel.Done ==> n == RealtimeModel.NodeOf(x, w))
            && (forall c, r :: c != s ==> ((c, r) in n.shared.members <==> (c, r) in x.shared.members))
  {
    var u := x.shared.socketUser[s];
    RealtimeTheorems.ReachableIsInv(x);
    GroupRoomEntered(x, w, s, g, VerdictOf(RoomForMember(Run(EMPTY, es), g, u)));
    MembersStanding(es, g, u);
  }
}
