/** What each group operation does to the tables, and what a removal means for every later run. */
module GroupLaws {
  import opened Common
  import opened GroupModel
  import opened GroupSafety

  ghost predicate OnlyInvitation(t: Tables, t': Tables, i: InvitationId) {
    && t'.users == t.users && t'.groups == t.groups
    && forall j :: j != i ==> Get(t'.invitations, j) == Get(t.invitations, j)
  }

  ghost predicate OnlyMembership(t: Tables, t': Tables, g: GroupId, u: UserId) {
    forall h, v :: (h, v) != (g, u) ==> Get(t'.members, (h, v)) == Get(t.members, (h, v))
  }

  /** A new group has its creator for owner and nobody else for a member. */
  lemma CreationMakesTheOwner(es: seq<Event>, creator: UserId, g: GroupId)
    requires PossibleRun(EMPTY, es) && Possible(Run(EMPTY, es), Create(creator, g))
    ensures var t := Run(EMPTY, es);
            var (t', reply) := CreateGroup(t, creator, g);
            && (reply == Done <==> creator in t.users)
            && (reply == Done ==>
                  && Get(t'.groups, g) == Some(creator)
                  && (forall u :: Get(t'.members, (g, u)) == if u == creator then Some(Owner) else None)
                  && (forall h :: h != g ==> Get(t'.groups, h) == Get(t.groups, h))
                  && (forall h, u :: h != g ==> Get(t'.members, (h, u)) == Get(t.members, (h, u)))
                  && t'.users == t.users && t'.invitations == t.invitations)
            && (reply != Done ==> t' == t)
  {
    RunKeeps(EMPTY, es);
    var t := Run(EMPTY, es);
    forall u ensures (g, u) !in t.members {
      assert (g, u) in t.members ==> (g, u).0 in t.groups;
    }
  }

  /** An invitation that goes out is recorded, pending, from the creator to the one invited, and changes nothing
      else. */
  lemma InvitingRecords(es: seq<Event>, g: GroupId, requester: UserId, target: Option<UserId>, blocked: bool,
      i: InvitationId)
    requires PossibleRun(EMPTY, es) && i !in Run(EMPTY, es).invitations
    ensures var t := Run(EMPTY, es);
            var (t', reply) := Invite(t, g, requester, target, blocked, i);
            && (reply == Done <==>
                  && g in t.groups && requester == t.groups[g] && !blocked
                  && target.Some? && target.value in t.users && (g, target.value) !in t.members
                  && forall j :: !PendingFor(t, j, g, target.value))
            && (reply == Done ==>
                  && OnlyInvitation(t, t', i) && t'.members == t.members
                  && Get(t'.invitations, i) == Some(Invitation(g, requester, target.value, Pending)))
            && (reply != Done ==> t' == t)
  {
    OneOwnerPerGroup(es, g, requester);
  }

  /** Only the invitee answers, once. A yes makes a member and a no does not; nothing else changes. */
  lemma AnsweringDecides(es: seq<Event>, i: InvitationId, u: UserId, accept: bool)
    requires PossibleRun(EMPTY, es)
    ensures var t := Run(EMPTY, es);
            var (t', reply) := RespondToInvitation(t, i, u, accept);
            && (reply == Done <==>
                i in t.invitations && t.invitations[i].invitee == u && t.invitations[i].status == Pending)
            && (reply == Done ==>
                  var v := t.invitations[i];
                  && OnlyInvitation(t, t', i) && OnlyMembership(t, t', v.group, u)
                  && Get(t'.invitations, i) ==
                      Some(Invitation(v.group, v.inviter, u, if accept then Accepted else Rejected))
                  && Get(t'.members, (v.group, u)) == if accept then Some(Member) else None)
            && (reply != Done ==> t' == t)
  {
    var t := Run(EMPTY, es);
    RunKeeps(EMPTY, es);
    if i in t.invitations && t.invitations[i].invitee == u && t.invitations[i].status == Pending {
      assert PendingFor(t, i, t.invitations[i].group, u);
    }
  }

  /** A membership ends exactly when it exists, is not the creator's, and the creator or the member asks. Then the
      row is gone and the room refused, and nothing else changes; otherwise nothing does. */
  lemma RemovalTakesTheRow(es: seq<Event>, g: GroupId, requester: UserId, target: UserId)
    requires PossibleRun(EMPTY, es)
    ensures var t := Run(EMPTY, es);
            var (t', reply) := RemoveMember(t, g, requester, target);
            var may := && g in t.groups && (g, target) in t.members && target != t.groups[g]
                       && (requester == t.groups[g] || requester == target);
            && (reply == Done <==> may)
            && ((g, target) in t.members && (g, target) !in t'.members <==> may)
            && OnlyMembership(t, t', g, target)
            && t'.users == t.users && t'.groups == t.groups && t'.invitations == t.invitations
            && (may ==> RoomForMember(t', g, target) == Forbidden)
            && (!may ==> t' == t)
  {
    RemovalByCreatorOrSelf(es, g, requester, target);
  }

  /** Only the creator deletes a group, and with it go exactly its members and its invitations. */
  lemma DeletingTakesTheGroup(t: Tables, g: GroupId, requester: UserId)
    ensures var (t', reply) := DeleteGroup(t, g, requester);
            && (reply == Done <==> Get(t.groups, g) == Some(requester))
            && (reply == Done ==>
                  && t'.users == t.users
                  && (forall h :: Get(t'.groups, h) == if h == g then None else Get(t.groups, h))
                  && (forall h, u :: Get(t'.members, (h, u)) == if h == g then None else Get(t.members, (h, u)))
                  && (forall i :: Get(t'.invitations, i) ==
                        if i in t.invitations && t.invitations[i].group == g then None else Get(t.invitations, i)))
            && (reply != Done ==> t' == t)
  {
  }

  /** A deleted user's groups go with their members and invitations, and so do the user's memberships and invitations
      elsewhere; everything of others stays. */
  lemma DeletionTakesItsOwn(t: Tables, u: UserId)
    ensures var t' := DeleteUser(t, u);
            && t'.users == t.users - {u}
            && (forall g :: Get(t'.groups, g) == if Get(t.groups, g) == Some(u) then None else Get(t.groups, g))
            && (forall g, v :: Get(t'.members, (g, v)) ==
                  if v == u || Get(t.groups, g) == Some(u) then None else Get(t.members, (g, v)))
            && (forall i :: Get(t'.invitations, i) ==
                  if i in t.invitations && (Get(t.groups, t.invitations[i].group) == Some(u)
                                            || t.invitations[i].inviter == u || t.invitations[i].invitee == u)
                  then None else Get(t.invitations, i))
  {
  }

  // ---------------------------------------------------------------------------
  // Staying out
  // ---------------------------------------------------------------------------

  /** The user accepts an invitation to the group. */
  predicate AcceptsInto(t: Tables, e: Event, g: GroupId, u: UserId) {
    && e.Answer? && e.accept && e.u == u && e.i in t.invitations && t.invitations[e.i].group == g
    && RespondToInvitation(t, e.i, u, true).1 == Done
  }

  predicate NeverAcceptsInto(t: Tables, es: seq<Event>, g: GroupId, u: UserId)
    decreases |es|
  {
    es == [] || (!AcceptsInto(t, es[0], g, u) && NeverAcceptsInto(Step(t, es[0]), es[1..], g, u))
  }

  /** The user creates no group under the same id. */
  predicate NeverMakesAnew(es: seq<Event>, g: GroupId, u: UserId) {
    forall i :: 0 <= i < |es| ==> es[i] != Create(u, g)
  }

  lemma StepStaysOut(t: Tables, e: Event, g: GroupId, u: UserId)
    requires (g, u) !in t.members && !AcceptsInto(t, e, g, u) && e != Create(u, g)
    ensures (g, u) !in Step(t, e).members
  {
  }

  lemma {:induction false} RunStaysOut(t: Tables, es: seq<Event>, g: GroupId, u: UserId)
    requires PossibleRun(t, es) && (g, u) !in t.members && NeverAcceptsInto(t, es, g, u) && NeverMakesAnew(es, g, u)
    ensures (g, u) !in Run(t, es).members
    decreases |es|
  {
    if es != [] {
      StepStaysOut(t, es[0], g, u);
      assert forall i :: 0 <= i < |es[1..]| ==> es[1..][i] == es[i + 1];
      RunStaysOut(Step(t, es[0]), es[1..], g, u);
    }
  }

  /** Whoever was removed is refused the room over every later run until accepting a new invitation. */
  lemma RemovedStaysOut(es: seq<Event>, g: GroupId, requester: UserId, target: UserId, fs: seq<Event>)
    requires PossibleRun(EMPTY, es) && RemoveMember(Run(EMPTY, es), g, requester, target).1 == Done
    requires PossibleRun(Step(Run(EMPTY, es), Expel(g, requester, target)), fs)
    requires NeverAcceptsInto(Step(Run(EMPTY, es), Expel(g, requester, target)), fs, g, target)
    requires NeverMakesAnew(fs, g, target)
    ensures var z := Run(Step(Run(EMPTY, es), Expel(g, requester, target)), fs);
            (g, target) !in z.members && RoomForMember(z, g, target) != Done
  {
    RemovalTakesTheRow(es, g, requester, target);
    RunStaysOut(Step(Run(EMPTY, es), Expel(g, requester, target)), fs, g, target);
  }

  /** The membership query knows members, strangers, and groups that are not there. */
  lemma RoomIsForMembers(t: Tables, g: GroupId, u: UserId)
    ensures RoomForMember(t, g, u) == Done <==> g in t.groups && (g, u) in t.members
    ensures RoomForMember(t, g, u) == NotFound <==> g !in t.groups
    ensures RoomForMember(t, g, u) == Forbidden <==> g in t.groups && (g, u) !in t.members
  {
  }
}
