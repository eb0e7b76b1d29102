/** Group chats, their members and invitations as tables with foreign keys and cascades, and the chat
    service's operations on them. Group and invitation ids are fresh. */
module GroupModel {
  import opened Common

  datatype Role = Owner | Member
  datatype InviteStatus = Pending | Accepted | Rejected
  datatype Invitation = Invitation(group: GroupId, inviter: UserId, invitee: UserId, status: InviteStatus)

  datatype Reply = Done | NotFound | Forbidden | BadRequest | ConstraintViolation

  /** `groups` maps a group to its `createdByUserId`; the unique key of a member row is its group and user. */
  datatype Tables = Tables(
    users: set<UserId>,
    groups: map<GroupId, UserId>,
    members: map<(GroupId, UserId), Role>,
    invitations: map<InvitationId, Invitation>)

  // ---------------------------------------------------------------------------
  // Operations on values
  // ---------------------------------------------------------------------------

  function CreateGroup(t: Tables, creator: UserId, g: GroupId): (Tables, Reply) {
    if creator !in t.users then (t, ConstraintViolation)
    else (t.(groups := t.groups[g := creator], members := t.members[(g, creator) := Owner]), Done)
  }

  predicate PendingFor(t: Tables, i: InvitationId, g: GroupId, u: UserId) {
    i in t.invitations && t.invitations[i].group == g && t.invitations[i].invitee == u &&
        t.invitations[i].status == Pending
  }

  /** `blocked` is the users service's answer for requester and target. */
  function Invite(t: Tables, g: GroupId, requester: UserId, target: Option<UserId>, blocked: bool,
      i: InvitationId): (Tables, Reply) {
    if g !in t.groups then (t, NotFound)
    else if (g, requester) !in t.members then (t, Forbidden)
    else if t.members[(g, requester)] != Owner then (t, Forbidden)
    else if target.None? || target.value !in t.users then (t, NotFound)
    else if (g, target.value) in t.members then (t, BadRequest)
    else if blocked then (t, Forbidden)
    else if exists j :: j in t.invitations && PendingFor(t, j, g, target.value) then (t, BadRequest)
    else (t.(invitations := t.invitations[i := Invitation(g, requester, target.value, Pending)]), Done)
  }

  function RespondToInvitation(t: Tables, i: InvitationId, u: UserId, accept: bool): (Tables, Reply) {
    if i !in t.invitations then (t, NotFound)
    else
      var v := t.invitations[i];
      if v.invitee != u then (t, Forbidden)
      else if v.status != Pending then (t, BadRequest)
      else
        var answered := t.(invitations := t.invitations[i := v.(status := if accept then Accepted else Rejected)]);
        if !accept then (answered, Done)
        else if v.group !in t.groups then (answered, NotFound)
        else if (v.group, u) in t.members then (answered, Done)
        else (answered.(members := t.members[(v.group, u) := Member]), Done)
  }

  function RemoveMember(t: Tables, g: GroupId, requester: UserId, target: UserId): (Tables, Reply) {
    if g !in t.groups then (t, NotFound)
    else if (g, requester) !in t.members then (t, Forbidden)
    else if t.members[(g, requester)] != Owner && requester != target then (t, Forbidden)
    else if target == t.groups[g] then (t, BadRequest)
    else if (g, target) !in t.members then (t, NotFound)
    else (t.(members := t.members - {(g, target)}), Done)
  }

  /** Removing group rows takes their member and invitation rows along. */
  function WithoutGroups(t: Tables, gone: set<GroupId>): Tables {
    t.(
      groups := t.groups - gone,
      members := map k | k in t.members && k.0 !in gone :: t.members[k],
      invitations := map i | i in t.invitations && t.invitations[i].group !in gone :: t.invitations[i])
  }

  function DeleteGroup(t: Tables, g: GroupId, requester: UserId): (Tables, Reply) {
    if g !in t.groups then (t, NotFound)
    else if t.groups[g] != requester then (t, Forbidden)
    else (WithoutGroups(t, {g}), Done)
  }

  /** The user row itself, its memberships, and every invitation it sent or received. */
  function WithoutUser(t: Tables, u: UserId): Tables {
    t.(
      users := t.users - {u},
      members := map k | k in t.members && k.1 != u :: t.members[k],
      invitations := map i | i in t.invitations && t.invitations[i].inviter != u && t.invitations[i].invitee != u ::
          t.invitations[i])
  }

  /** Removing a user row also takes along the groups it created. */
  function DeleteUser(t: Tables, u: UserId): Tables {
    WithoutUser(WithoutGroups(t, set g | g in t.groups && t.groups[g] == u), u)
  }

  /** The membership query behind joining a group's room. */
  function RoomForMember(t: Tables, g: GroupId, u: UserId): Reply {
    if g !in t.groups then NotFound else if (g, u) in t.members then Done else Forbidden
  }
}
