/** Who may be in a group, for every run of the group operations, account deletions and cascades. */
module GroupSafety {
  import opened Common
  import opened GroupModel

  // ---------------------------------------------------------------------------
  // Invariants
  // ---------------------------------------------------------------------------

  ghost predicate ForeignKeys(t: Tables) {
    && (forall g :: g in t.groups ==> t.groups[g] in t.users)
    && (forall k :: k in t.members ==> k.0 in t.groups && k.1 in t.users)
    && (forall i :: i in t.invitations ==>
          t.invitations[i].group in t.groups && t.invitations[i].inviter in t.users &&
              t.invitations[i].invitee in t.users)
  }

  /** A group has one owner row, and it is its creator's. */
  ghost predicate OwnedByCreator(t: Tables) {
    && (forall g :: g in t.groups ==> (g, t.groups[g]) in t.members)
    && (forall k :: k in t.members && k.0 in t.groups ==> (t.members[k] == Owner <==> k.1 == t.groups[k.0]))
  }

  /** Every invitation comes from the owner of its group. */
  ghost predicate SentByOwner(t: Tables) {
    forall i :: i in t.invitations && t.invitations[i].group in t.groups ==>
        t.invitations[i].inviter == t.groups[t.invitations[i].group]
  }

  ghost predicate AcceptedFromOwner(t: Tables, i: InvitationId, g: GroupId, u: UserId) {
    g in t.groups && i in t.invitations && t.invitations[i] == Invitation(g, t.groups[g], u, Accepted)
  }

  /** Every ordinary member accepted an invitation of the owner. */
  ghost predicate MembersInvited(t: Tables) {
    forall k :: k in t.members && t.members[k] == Member ==> exists i :: AcceptedFromOwner(t, i, k.0, k.1)
  }

  ghost predicate OnePending(t: Tables) {
    forall i, j, g, u :: PendingFor(t, i, g, u) && PendingFor(t, j, g, u) ==> i == j
  }

  ghost predicate NeverMemberAndPending(t: Tables) {
    forall i, g, u :: PendingFor(t, i, g, u) ==> (g, u) !in t.members
  }

  ghost predicate Inv(t: Tables) {
    ForeignKeys(t) && OwnedByCreator(t) && SentByOwner(t) && MembersInvited(t) && OnePending(t) &&
        NeverMemberAndPending(t)
  }

  // ---------------------------------------------------------------------------
  // Runs
  // ---------------------------------------------------------------------------

  datatype Event =
    | Register(u: UserId)
    | Create(creator: UserId, g: GroupId)
    | Ask(g: GroupId, requester: UserId, target: Option<UserId>, blocked: bool, i: InvitationId)
    | Answer(i: InvitationId, u: UserId, accept: bool)
    | Expel(g: GroupId, requester: UserId, member: UserId)
    | Dissolve(g: GroupId, requester: UserId)
    | Delete(u: UserId)

  /** New rows get new ids. */
  predicate Possible(t: Tables, e: Event) {
    match e
    case Create(creator, g) => g !in t.groups
    case Ask(g, requester, target, blocked, i) => i !in t.invitations
    case _ => true
  }

  function Step(t: Tables, e: Event): Tables {
    match e
    case Register(u) => t.(users := t.users + {u})
    case Create(creator, g) => CreateGroup(t, creator, g).0
    case Ask(g, requester, target, blocked, i) => Invite(t, g, requester, target, blocked, i).0
    case Answer(i, u, accept) => RespondToInvitation(t, i, u, accept).0
    case Expel(g, requester, target) => RemoveMember(t, g, requester, target).0
    case Dissolve(g, requester) => DeleteGroup(t, g, requester).0
    case Delete(u) => DeleteUser(t, u)
  }

  predicate PossibleRun(t: Tables, es: seq<Event>)
    decreases |es|
  {
    es == [] || (Possible(t, es[0]) && PossibleRun(Step(t, es[0]), es[1..]))
  }

  function Run(t: Tables, es: seq<Event>): Tables
    decreases |es|
  {
    if es == [] then t else Run(Step(t, es[0]), es[1..])
  }

  /** Steps after which every surviving ordinary member and its accepted invitation are still there. */
  lemma MembersStayInvited(t: Tables, t': Tables)
    requires MembersInvited(t)
    requires forall k :: k in t'.members && t'.members[k] == Member ==> k in t.members && t.members[k] == Member
    requires forall i, k :: k in t'.members && t'.members[k] == Member && AcceptedFromOwner(t, i, k.0, k.1) ==>
        AcceptedFromOwner(t', i, k.0, k.1)
    ensures MembersInvited(t')
  {
    forall k | k in t'.members && t'.members[k] == Member
      ensures exists i :: AcceptedFromOwner(t', i, k.0, k.1)
    {
      var i :| AcceptedFromOwner(t, i, k.0, k.1);
      assert AcceptedFromOwner(t', i, k.0, k.1);
    }
  }

  lemma CreateKeeps(t: Tables, creator: UserId, g: GroupId)
    requires Inv(t) && g !in t.groups
    ensures Inv(CreateGroup(t, creator, g).0)
  {
    var t' := CreateGroup(t, creator, g).0;
    forall i, h, u | PendingFor(t', i, h, u) ensures PendingFor(t, i, h, u) {}
    MembersStayInvited(t, t');
  }

  lemma InviteKeeps(t: Tables, g: GroupId, requester: UserId, target: Option<UserId>, blocked: bool, i: InvitationId)
    requires Inv(t) && i !in t.invitations
    ensures Inv(Invite(t, g, requester, target, blocked, i).0)
  {
    var (t', reply) := Invite(t, g, requester, target, blocked, i);
    if reply == Done {
      forall j, h, u | PendingFor(t', j, h, u)
        ensures if j == i then h == g && u == target.value else PendingFor(t, j, h, u)
      {
      }
      MembersStayInvited(t, t');
    }
  }

  /** An answer settles one pending invitation and leaves the others pending. */
  lemma AnswerKeepsPending(t: Tables, i: InvitationId, u: UserId, accept: bool)
    requires Inv(t) && RespondToInvitation(t, i, u, accept).1 == Done
    ensures var t' := RespondToInvitation(t, i, u, accept).0; OnePending(t') && NeverMemberAndPending(t')
  {
    var t' := RespondToInvitation(t, i, u, accept).0;
    assert PendingFor(t, i, t.invitations[i].group, u);
    forall j, h, w | PendingFor(t', j, h, w) ensures PendingFor(t, j, h, w) && j != i {}
  }

  lemma AnswerKeepsMembersInvited(t: Tables, i: InvitationId, u: UserId, accept: bool)
    requires Inv(t) && RespondToInvitation(t, i, u, accept).1 == Done
    ensures MembersInvited(RespondToInvitation(t, i, u, accept).0)
  {
    var t' := RespondToInvitation(t, i, u, accept).0;
    if accept {
      var g := t.invitations[i].group;
      var before := t'.(members := t.members);
      MembersStayInvited(t, before);
      forall k | k in t'.members && t'.members[k] == Member
        ensures exists j :: AcceptedFromOwner(t', j, k.0, k.1)
      {
        if k == (g, u) {
          assert AcceptedFromOwner(t', i, g, u);
        } else {
          var j :| AcceptedFromOwner(before, j, k.0, k.1);
          assert AcceptedFromOwner(t', j, k.0, k.1);
        }
      }
    } else {
      MembersStayInvited(t, t');
    }
  }

  lemma AnswerKeeps(t: Tables, i: InvitationId, u: UserId, accept: bool)
    requires Inv(t)
    ensures Inv(RespondToInvitation(t, i, u, accept).0)
  {
    var (t', reply) := RespondToInvitation(t, i, u, accept);
    if reply == Done {
      assert PendingFor(t, i, t.invitations[i].group, u);
      AnswerKeepsPending(t, i, u, accept);
      AnswerKeepsMembersInvited(t, i, u, accept);
    }
  }

  lemma ExpelKeeps(t: Tables, g: GroupId, requester: UserId, target: UserId)
    requires Inv(t)
    ensures Inv(RemoveMember(t, g, requester, target).0)
  {
    var t' := RemoveMember(t, g, requester, target).0;
    forall j, h, w | PendingFor(t', j, h, w) ensures PendingFor(t, j, h, w) {}
    MembersStayInvited(t, t');
  }

  lemma WithoutGroupsKeeps(t: Tables, gone: set<GroupId>)
    requires Inv(t)
    ensures Inv(WithoutGroups(t, gone))
  {
    var t' := WithoutGroups(t, gone);
    forall j, h, w | PendingFor(t', j, h, w) ensures PendingFor(t, j, h, w) {}
    MembersStayInvited(t, t');
  }

  lemma WithoutUserKeeps(t: Tables, u: UserId)
    requires Inv(t) && forall g :: g in t.groups ==> t.groups[g] != u
    ensures Inv(WithoutUser(t, u))
  {
    var t' := WithoutUser(t, u);
    assert ForeignKeys(t') && OwnedByCreator(t') && SentByOwner(t');
    forall j, h, w | PendingFor(t', j, h, w) ensures PendingFor(t, j, h, w) {}
    forall i, k | k in t'.members && AcceptedFromOwner(t, i, k.0, k.1) ensures AcceptedFromOwner(t', i, k.0, k.1) {}
    MembersStayInvited(t, t');
  }

  lemma DeleteUserKeeps(t: Tables, u: UserId)
    requires Inv(t)
    ensures Inv(DeleteUser(t, u))
  {
    var gone := set g | g in t.groups && t.groups[g] == u;
    WithoutGroupsKeeps(t, gone);
    WithoutUserKeeps(WithoutGroups(t, gone), u);
  }

  lemma {:induction false} RunKeeps(t: Tables, es: seq<Event>)
    requires Inv(t) && PossibleRun(t, es)
    ensures Inv(Run(t, es))
    decreases |es|
  {
    if es != [] {
      match es[0] {
        case Register(u) =>
          var t' := Step(t, es[0]);
          forall j, h, w | PendingFor(t', j, h, w) ensures PendingFor(t, j, h, w) {}
          MembersStayInvited(t, t');
        case Create(creator, g) => CreateKeeps(t, creator, g);
        case Ask(g, requester, target, blocked, i) => InviteKeeps(t, g, requester, target, blocked, i);
        case Answer(i, u, accept) => AnswerKeeps(t, i, u, accept);
        case Expel(g, requester, target) => ExpelKeeps(t, g, requester, target);
        case Dissolve(g, requester) => WithoutGroupsKeeps(t, {g});
        case Delete(u) => DeleteUserKeeps(t, u);
      }
      RunKeeps(Step(t, es[0]), es[1..]);
    }
  }

  const EMPTY := Tables({}, map[], map[], map[])

  // ---------------------------------------------------------------------------
  // What a reader of the tables may rely on after any run
  // ---------------------------------------------------------------------------

  /** Exactly one owner row per group, the creator's; it can never be missing. */
  lemma OneOwnerPerGroup(es: seq<Event>, g: GroupId, u: UserId)
    requires PossibleRun(EMPTY, es)
    ensures var t := Run(EMPTY, es);
            g in t.groups ==> t.groups[g] in t.users && (Get(t.members, (g, u)) == Some(Owner) <==> u == t.groups[g])
  {
    RunKeeps(EMPTY, es);
    var t := Run(EMPTY, es);
    if g in t.groups {
      assert (g, t.groups[g]) in t.members;
      if (g, u) in t.members {
        assert t.members[(g, u)] == Owner <==> (g, u).1 == t.groups[(g, u).0];
      }
    }
  }

  /** Nobody is an ordinary member without having accepted the owner's invitation. */
  lemma MembershipIsInvited(es: seq<Event>, g: GroupId, u: UserId)
    requires PossibleRun(EMPTY, es) && Get(Run(EMPTY, es).members, (g, u)) == Some(Member)
    ensures exists i :: AcceptedFromOwner(Run(EMPTY, es), i, g, u)
  {
    RunKeeps(EMPTY, es);
    var t := Run(EMPTY, es);
    var k := (g, u);
    assert k in t.members && t.members[k] == Member;
    assert exists i :: AcceptedFromOwner(t, i, k.0, k.1);
  }

  /** At most one pending invitation per group and user, and none for a member. */
  lemma PendingIsUniqueAndOutside(es: seq<Event>, i: InvitationId, j: InvitationId, g: GroupId, u: UserId)
    requires PossibleRun(EMPTY, es) && PendingFor(Run(EMPTY, es), i, g, u)
    ensures (g, u) !in Run(EMPTY, es).members
    ensures PendingFor(Run(EMPTY, es), j, g, u) ==> i == j
  {
    RunKeeps(EMPTY, es);
  }

  /** Accepting always adds exactly one ordinary member: the branches for a vanished group and for an
      invitee who already is a member are never taken. */
  lemma AcceptingAddsTheMember(es: seq<Event>, i: InvitationId, g: GroupId, u: UserId)
    requires PossibleRun(EMPTY, es) && PendingFor(Run(EMPTY, es), i, g, u)
    ensures var t := Run(EMPTY, es);
            var (t', reply) := RespondToInvitation(t, i, u, true);
            && reply == Done && (g, u) !in t.members && t'.members == t.members[(g, u) := Member]
            && g in t.groups && AcceptedFromOwner(t', i, g, u)
  {
    RunKeeps(EMPTY, es);
  }

  /** An invitation goes out exactly from the creator, to an existing, unblocked outsider without a pending one. */
  lemma InvitesOnlyFromCreator(es: seq<Event>, g: GroupId, requester: UserId, target: UserId, blocked: bool,
      i: InvitationId)
    requires PossibleRun(EMPTY, es)
    ensures var t := Run(EMPTY, es);
            Invite(t, g, requester, Some(target), blocked, i).1 == Done <==>
              && g in t.groups && requester == t.groups[g]
              && target in t.users && (g, target) !in t.members && !blocked
              && forall j :: !PendingFor(t, j, g, target)
  {
    OneOwnerPerGroup(es, g, requester);
  }

  /** A membership ends exactly at the hands of the creator or the member itself, and never the creator's own. */
  lemma RemovalByCreatorOrSelf(es: seq<Event>, g: GroupId, requester: UserId, target: UserId)
    requires PossibleRun(EMPTY, es)
    ensures var t := Run(EMPTY, es);
            RemoveMember(t, g, requester, target).1 == Done <==>
              && g in t.groups && (g, target) in t.members && target != t.groups[g]
              && (requester == t.groups[g] || requester == target)
  {
    OneOwnerPerGroup(es, g, requester);
    OneOwnerPerGroup(es, g, target);
  }
}
