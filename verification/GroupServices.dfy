/** The group half of the chat service over tables it updates in place; every method is proved against
    the operation of the same name in GroupModel. */
module GroupServices {
  import opened Common
  import opened GroupModel

  class GroupService {
    var users: set<UserId>
    var groups: map<GroupId, UserId>
    var members: map<(GroupId, UserId), Role>
    var invitations: map<InvitationId, Invitation>

    constructor ()
      ensures View() == Tables({}, map[], map[], map[])
    {
      users, groups, members, invitations := {}, map[], map[], map[];
    }

    ghost function View(): Tables
      reads this
    {
      Tables(users, groups, members, invitations)
    }

    method CreateGroup(creator: UserId, g: GroupId) returns (reply: Reply)
      modifies this
      ensures (View(), reply) == GroupModel.CreateGroup(old(View()), creator, g)
    {
      if creator !in users {
        return ConstraintViolation;
      }
      groups := groups[g := creator];
      members := members[(g, creator) := Owner];
      return Done;
    }

    method InviteMember(g: GroupId, requester: UserId, target: Option<UserId>, blocked: bool, i: InvitationId)
        returns (reply: Reply)
      modifies this
      ensures (View(), reply) == Invite(old(View()), g, requester, target, blocked, i)
    {
      if g !in groups {
        return NotFound;
      }
      if (g, requester) !in members || members[(g, requester)] != Owner {
        return Forbidden;
      }
      if target.None? || target.value !in users {
        return NotFound;
      }
      if (g, target.value) in members {
        return BadRequest;
      }
      if blocked {
        return Forbidden;
      }
      var existing := set j | j in invitations && invitations[j].group == g && invitations[j].invitee == target.value
                              && invitations[j].status == Pending;
      if existing != {} {
        var j :| j in existing;
        assert PendingFor(View(), j, g, target.value);
        return BadRequest;
      }
      forall j | j in invitations ensures !PendingFor(View(), j, g, target.value)
      {
        assert j !in existing;
      }
      invitations := invitations[i := Invitation(g, requester, target.value, Pending)];
      return Done;
    }

    method RespondToGroupInvitation(i: InvitationId, u: UserId, accept: bool) returns (reply: Reply)
      modifies this
      ensures (View(), reply) == RespondToInvitation(old(View()), i, u, accept)
    {
      if i !in invitations {
        return NotFound;
      }
      var invitation := invitations[i];
      if invitation.invitee != u {
        return Forbidden;
      }
      if invitation.status != Pending {
        return BadRequest;
      }
      invitations := invitations[i := invitation.(status := if accept then Accepted else Rejected)];
      if accept {
        if invitation.group !in groups {
          return NotFound;
        }
        if (invitation.group, u) !in members {
          members := members[(invitation.group, u) := Member];
        }
      }
      return Done;
    }

    method RemoveMember(g: GroupId, requester: UserId, target: UserId) returns (reply: Reply)
      modifies this
      ensures (View(), reply) == GroupModel.RemoveMember(old(View()), g, requester, target)
    {
      if g !in groups {
        return NotFound;
      }
      if (g, requester) !in members {
        return Forbidden;
      }
      if members[(g, requester)] != Owner && requester != target {
        return Forbidden;
      }
      if target == groups[g] {
        return BadRequest;
      }
      if (g, target) !in members {
        return NotFound;
      }
      members := members - {(g, target)};
      return Done;
    }

    method DeleteGroup(g: GroupId, requester: UserId) returns (reply: Reply)
      modifies this
      ensures (View(), reply) == GroupModel.DeleteGroup(old(View()), g, requester)
    {
      if g !in groups {
        return NotFound;
      }
      if groups[g] != requester {
        return Forbidden;
      }
      CascadeGroups({g});
      return Done;
    }

    method GetGroupRoomForMember(g: GroupId, u: UserId) returns (reply: Reply)
      ensures reply == GroupModel.RoomForMember(View(), g, u)
    {
      if g !in groups {
        return NotFound;
      }
      var isMember := exists m :: m in members && m.0 == g && m.1 == u;
      if !isMember {
        return Forbidden;
      }
      return Done;
    }

    method CascadeGroups(gone: set<GroupId>)
      modifies this
      ensures View() == WithoutGroups(old(View()), gone)
    {
      groups := groups - gone;
      members := map k | k in members && k.0 !in gone :: members[k];
      invitations := map i | i in invitations && invitations[i].group !in gone :: invitations[i];
    }

    /** What deleting a user row does to these tables. */
    method CascadeUser(u: UserId)
      modifies this
      ensures View() == DeleteUser(old(View()), u)
    {
      CascadeGroups(set g | g in groups && groups[g] == u);
      users := users - {u};
      members := map k | k in members && k.1 != u :: members[k];
      invitations := map i | i in invitations && invitations[i].inviter != u && invitations[i].invitee != u ::
          invitations[i];
    }
  }
}
