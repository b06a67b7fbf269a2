/** What each membership call does when no other call comes between its steps, by the fields of the records. */
module MembershipOutcomes {
  import opened JobModels
  import opened MembershipStore
  import opened MembershipService

  /** A call from its beginning to its end; no call takes more than three steps after its first. */
  function Alone(w: World, me: nat, call: Call): World {
    Step(Step(Step(Step(w, Begin(me, call)), Proceed(me)), Proceed(me)), Proceed(me))
  }

  predicate Ready(w: World, me: nat) { me < |w.agents| && w.agents[me].Idle? }

  /** The call has ended so, with these repositories; time and the other callers are as they were. */
  predicate Ends(w: World, me: nat, end: World, ok: bool, members: Members, invitations: Invitations)
    requires me < |w.agents|
  {
    end == World(members, invitations, w.now, w.agents[me := Done(ok)])
  }

  lemma TwoSteps(w: World, me: nat, call: Call)
    requires Ready(w, me)
    ensures var begun := Step(w, Begin(me, call));
            && (begun.agents[me].Done? ==> Alone(w, me, call) == begun)
            && (Step(begun, Proceed(me)).agents[me].Done? ==> Alone(w, me, call) == Step(begun, Proceed(me)))
  {
    var begun := Step(w, Begin(me, call));
    DoneStays(begun, me);
    DoneStays(Step(begun, Proceed(me)), me);
    DoneStays(Step(Step(begun, Proceed(me)), Proceed(me)), me);
  }

  lemma DoneStays(w: World, me: nat)
    requires me < |w.agents|
    ensures w.agents[me].Done? ==> Step(w, Proceed(me)) == w
    ensures |Step(w, Proceed(me)).agents| == |w.agents|
  {
    assert w.agents[me].Done? ==> w.agents[me := w.agents[me]] == w.agents;
  }

  /** A new member is stored at version 1 exactly if its key is free. */
  lemma AddMemberAlone(w: World, me: nat, m: Membership)
    requires Ready(w, me)
    ensures var ok := Key(m.tenant, m.user) !in w.members.byKey;
            Ends(w, me, Alone(w, me, AddMember(m)), ok,
                 if ok then Members(w.members.byKey[Key(m.tenant, m.user) := m.(version := 1)],
                                    w.members.byMemberId[m.memberId := Key(m.tenant, m.user)],
                                    w.members.bootstrapped)
                 else w.members,
                 w.invitations)
  {
    TwoSteps(w, me, AddMember(m));
    assert w.agents[me := Adding(m)][me := Done(true)] == w.agents[me := Done(true)];
  }

  /** The first owner is stored, active and at version 1, exactly if the tenant has no record of any status, was
      never given a first owner, and the key is free. */
  lemma BootstrapOwnerAlone(w: World, me: nat, tenant: string, user: string, memberId: int)
    requires Ready(w, me)
    ensures var key := Key(tenant, user);
            var ok := (forall k :: k in w.members.byKey ==> w.members.byKey[k].tenant != tenant)
                      && tenant !in w.members.bootstrapped && key !in w.members.byKey;
            Ends(w, me, Alone(w, me, BootstrapOwner(tenant, user, memberId)), ok,
                 if ok then Members(w.members.byKey[key := Membership(tenant, user, memberId, OWNER_ROLE, Active, None, 1)],
                                    w.members.byMemberId[memberId := key],
                                    w.members.bootstrapped + {tenant})
                 else w.members,
                 w.invitations)
  {
    TwoSteps(w, me, BootstrapOwner(tenant, user, memberId));
  }

  /** Whether one status may be set on another, case by case. */
  predicate MayBecome(before: MemberStatus, after: MemberStatus) {
    || (before == MemberStatus.Pending && (after == Active || after == Removed))
    || (before == Active && (after == Suspended || after == Removed))
    || (before == Suspended && (after == Active || after == Removed))
  }

  /** The member behind the id, if there is one. */
  predicate Finds(members: Members, memberId: int, m: Membership) {
    memberId in members.byMemberId && members.byMemberId[memberId] in members.byKey
    && members.byKey[members.byMemberId[memberId]] == m
  }

  /** An update applies to a member that is there, not removed, at the version supplied if one is, and for which
      the status is allowed; it sets the role and the status that are given, keeps all else, and raises the
      version by one. */
  lemma UpdateMemberAlone(w: World, me: nat, memberId: int, role: Option<int>, status: Option<MemberStatus>,
                          supplied: Option<nat>, m: Membership)
    requires Ready(w, me) && KeysMatch(w.members) && Finds(w.members, memberId, m)
    ensures var ok := m.status != Removed && (status.Some? ==> MayBecome(m.status, status.value))
                      && (supplied.Some? ==> supplied.value == m.version);
            var updated := Membership(m.tenant, m.user, m.memberId,
                                      match role case Some(r) => r case None => m.role,
                                      match status case Some(s) => s case None => m.status,
                                      m.invitation, m.version + 1);
            Ends(w, me, Alone(w, me, UpdateMember(memberId, role, status, supplied)), ok,
                 if ok then w.members.(byKey := w.members.byKey[w.members.byMemberId[memberId] := updated]) else w.members,
                 w.invitations)
  {
    TwoSteps(w, me, UpdateMember(memberId, role, status, supplied));
    var changing := Changing(m, Changes(role, status, None), supplied);
    assert forall ok :: w.agents[me := changing][me := Done(ok)] == w.agents[me := Done(ok)];
  }

  /** A removal marks the member REMOVED under the version supplied, if one is; of a removed one it changes nothing
      and succeeds. */
  lemma RemoveMemberAlone(w: World, me: nat, memberId: int, supplied: Option<nat>, m: Membership)
    requires Ready(w, me) && KeysMatch(w.members) && Finds(w.members, memberId, m)
    ensures var writes := m.status != Removed && (supplied.Some? ==> supplied.value == m.version);
            Ends(w, me, Alone(w, me, RemoveMember(memberId, supplied)), writes || m.status == Removed,
                 if writes then w.members.(byKey := w.members.byKey[w.members.byMemberId[memberId] :=
                                             m.(status := Removed, version := m.version + 1)])
                 else w.members,
                 w.invitations)
  {
    TwoSteps(w, me, RemoveMember(memberId, supplied));
    var changing := Changing(m, Changes(None, Some(Removed), None), supplied);
    assert forall ok :: w.agents[me := changing][me := Done(ok)] == w.agents[me := Done(ok)];
  }

  /** Neither does anything to an id that is not known. */
  lemma UnknownMember(w: World, me: nat, memberId: int, role: Option<int>, status: Option<MemberStatus>, supplied: Option<nat>)
    requires Ready(w, me) && forall m :: !Finds(w.members, memberId, m)
    ensures Ends(w, me, Alone(w, me, UpdateMember(memberId, role, status, supplied)), false, w.members, w.invitations)
    ensures Ends(w, me, Alone(w, me, RemoveMember(memberId, supplied)), false, w.members, w.invitations)
  {
    TwoSteps(w, me, UpdateMember(memberId, role, status, supplied));
    TwoSteps(w, me, RemoveMember(memberId, supplied));
    assert GetByMemberId(w.members, memberId).None? by {
      if memberId in w.members.byMemberId && w.members.byMemberId[memberId] in w.members.byKey {
        assert Finds(w.members, memberId, w.members.byKey[w.members.byMemberId[memberId]]);
      }
    }
  }

  /** An invitation under a new id is stored open, at version 1, for seven days, and can be found by its token. */
  lemma InviteMemberAlone(w: World, me: nat, tenant: string, id: int, token: int, role: int)
    requires Ready(w, me)
    ensures var ok := id !in w.invitations.byId;
            Ends(w, me, Alone(w, me, InviteMember(tenant, id, token, role)), ok, w.members,
                 if ok then Invitations(w.invitations.byId[id := Invitation(tenant, id, token, role, Open,
                                                                            w.now + 7 * 24 * 3600 * 1000, None, None, 1)],
                                        w.invitations.byToken[token := id])
                 else w.invitations)
  {
    TwoSteps(w, me, InviteMember(tenant, id, token, role));
  }

  /** A cancellation marks an open invitation, expired or not, as cancelled, and nothing else. */
  lemma CancelInvitationAlone(w: World, me: nat, id: int)
    requires Ready(w, me) && IdsMatch(w.invitations)
    ensures var ok := id in w.invitations.byId && w.invitations.byId[id].status == Open;
            Ends(w, me, Alone(w, me, CancelInvitation(id)), ok, w.members,
                 if ok then w.invitations.(byId := w.invitations.byId[id :=
                              w.invitations.byId[id].(status := Cancelled, version := w.invitations.byId[id].version + 1)])
                 else w.invitations)
  {
    TwoSteps(w, me, CancelInvitation(id));
    if id in w.invitations.byId {
      assert w.agents[me := Cancelling(w.invitations.byId[id])][me := Done(true)] == w.agents[me := Done(true)];
    }
  }

  /** The open invitation behind the token that has not expired. */
  predicate Usable(w: World, token: int, i: Invitation) {
    && token in w.invitations.byToken && w.invitations.byToken[token] in w.invitations.byId
    && w.invitations.byId[w.invitations.byToken[token]] == i
    && i.status == Open && w.now < i.expiresAt
  }

  /** A token without such an invitation does nothing. */
  lemma UnusableToken(w: World, me: nat, token: int, user: string, memberId: int)
    requires Ready(w, me) && forall i :: !Usable(w, token, i)
    ensures Ends(w, me, Alone(w, me, AcceptInvitation(token, user, memberId)), false, w.members, w.invitations)
  {
    TwoSteps(w, me, AcceptInvitation(token, user, memberId));
    var found := GetByToken(w.invitations, token);
    assert found.Some? ==> !Usable(w, token, found.value);
  }

  /** The member that an accepted invitation makes of what is stored for the user: a new one, or the same one with
      the role and the id of the invitation, active. */
  function Activated(i: Invitation, user: string, memberId: int, existing: Option<Membership>): Membership {
    match existing
    case None => Membership(i.tenant, user, memberId, i.role, Active, Some(i.id), 1)
    case Some(m) => Membership(m.tenant, m.user, m.memberId, i.role, Active, Some(i.id), m.version + 1)
  }

  /** An acceptance consumes the invitation, with its time and user, in any case. It then makes the user an active
      member with the role of the invitation, unless the user was removed: then the invitation is lost, and the
      call fails. */
  lemma AcceptInvitationAlone(w: World, me: nat, token: int, user: string, memberId: int, i: Invitation)
    requires Ready(w, me) && KeysMatch(w.members) && IdsMatch(w.invitations) && Usable(w, token, i)
    ensures var key := Key(i.tenant, user);
            var existing := if key in w.members.byKey then Some(w.members.byKey[key]) else None;
            var ok := existing.Some? ==> existing.value.status != Removed;
            var member := Activated(i, user, memberId, existing);
            Ends(w, me, Alone(w, me, AcceptInvitation(token, user, memberId)), ok,
                 if !ok then w.members
                 else w.members.(byKey := w.members.byKey[key := member],
                                 byMemberId := if existing.None? then w.members.byMemberId[memberId := key]
                                               else w.members.byMemberId),
                 w.invitations.(byId := w.invitations.byId[i.id :=
                   i.(status := Accepted, acceptedAt := Some(w.now), acceptedBy := Some(user), version := i.version + 1)]))
  {
    var accepted := i.(status := Accepted, acceptedAt := Some(w.now), acceptedBy := Some(user), version := i.version + 1);
    var invitations := w.invitations.(byId := w.invitations.byId[i.id := accepted]);
    var begun := Step(w, Begin(me, AcceptInvitation(token, user, memberId)));
    assert begun == w.(agents := w.agents[me := Accepting(i, user, memberId, w.now)]);
    var id := w.invitations.byToken[token];
    assert id in w.invitations.byId && w.invitations.byId[id].id == id;
    assert Continue(begun, begun.agents[me]) == (w.members, invitations, Activating(accepted, user, memberId));
    var second := Step(begun, Proceed(me));
    SetAgain(w.agents, me, begun.agents[me], Activating(accepted, user, memberId));
    assert second == World(w.members, invitations, w.now, w.agents[me := Activating(accepted, user, memberId)]);
    Activates(w, me, accepted, user, memberId, second);
  }

  lemma SetAgain(agents: seq<Local>, me: nat, a: Local, b: Local)
    requires me < |agents|
    ensures agents[me := a][me := b] == agents[me := b]
  {
  }

  lemma Activates(w: World, me: nat, accepted: Invitation, user: string, memberId: int, second: World)
    requires me < |w.agents| && KeysMatch(w.members)
    requires second.members == w.members && second.agents == w.agents[me := Activating(accepted, user, memberId)]
    ensures var key := Key(accepted.tenant, user);
            var existing := if key in w.members.byKey then Some(w.members.byKey[key]) else None;
            var ok := existing.Some? ==> existing.value.status != Removed;
            var member := Activated(accepted, user, memberId, existing);
            var end := Step(Step(second, Proceed(me)), Proceed(me));
            && end.agents == w.agents[me := Done(ok)] && end.now == second.now && end.invitations == second.invitations
            && end.members == if !ok then w.members
                              else w.members.(byKey := w.members.byKey[key := member],
                                              byMemberId := if existing.None? then w.members.byMemberId[memberId := key]
                                                            else w.members.byMemberId)
  {
    var third := Step(second, Proceed(me));
    SetAgain(w.agents, me, second.agents[me], third.agents[me]);
    SetAgain(w.agents, me, third.agents[me], Step(third, Proceed(me)).agents[me]);
  }
}
