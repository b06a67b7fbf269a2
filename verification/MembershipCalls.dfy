/** The service's calls as they are written: read, check, then a versioned write to the repositories,
    with the steps of the other callers in between. Each call is a run of the interleaving model. */
module MembershipCalls {
  import opened JobModels
  import opened MembershipStore
  import opened MembershipService

  /** The remaining steps of a call, each after the steps that the others take meanwhile. */
  function Drive(w: World, me: nat, others: seq<seq<Event>>): World
    decreases |others|
  {
    if others == [] || me >= |w.agents| || w.agents[me].Done? then w
    else Drive(Step(Exec(w, others[0]), Proceed(me)), me, others[1..])
  }

  function RunCall(w: World, me: nat, call: Call, others: seq<seq<Event>>): World {
    Drive(Step(w, Begin(me, call)), me, others)
  }

  lemma DriveStep(w: World, me: nat, others: seq<Event>, rest: seq<seq<Event>>)
    requires me < |w.agents| && !w.agents[me].Done?
    ensures Drive(w, me, [others] + rest) == Drive(Step(Exec(w, others), Proceed(me)), me, rest)
  {
    assert ([others] + rest)[1..] == rest;
  }

  lemma DriveDone(w: World, me: nat, others: seq<seq<Event>>)
    requires me < |w.agents| && w.agents[me].Done?
    ensures Drive(w, me, others) == w
  {
  }

  lemma DriveLast(w: World, me: nat, others: seq<Event>)
    requires me < |w.agents| && !w.agents[me].Done?
    ensures Drive(w, me, [others]) == Step(Exec(w, others), Proceed(me))
  {
    DriveStep(w, me, others, []);
    assert [others] + [] == [others];
  }

  /** A call among others is a run of the interleaving model, so what holds of all runs holds of it. */
  lemma {:induction false} DriveIsRun(w: World, me: nat, others: seq<seq<Event>>) returns (events: seq<Event>)
    ensures Drive(w, me, others) == Exec(w, events)
    decreases |others|
  {
    if others == [] || me >= |w.agents| || w.agents[me].Done? {
      events := [];
    } else {
      var rest := DriveIsRun(Step(Exec(w, others[0]), Proceed(me)), me, others[1..]);
      ExecJoin(w, others[0], [Proceed(me)] + rest);
      assert ([Proceed(me)] + rest)[1..] == rest;
      events := others[0] + ([Proceed(me)] + rest);
    }
  }

  class Service {
    const members: InMemoryMembershipRepository
    const invitations: InMemoryInvitationRepository
    const me: nat
    var now: int
    /** Where this call stands, and the other callers. */
    var agents: seq<Local>

    constructor (members: InMemoryMembershipRepository, invitations: InMemoryInvitationRepository,
                 now: int, agents: seq<Local>, me: nat)
      requires me < |agents|
      ensures Valid() && this.members == members && this.invitations == invitations && this.me == me
      ensures this.now == now && this.agents == agents
    {
      this.members, this.invitations, this.now, this.agents, this.me := members, invitations, now, agents, me;
    }

    predicate Valid()
      reads this
    {
      me < |agents|
    }

    ghost function Now(): World
      reads this, members, invitations
    {
      World(members.Contents(), invitations.Contents(), now, agents)
    }

    /** The other callers take their steps. */
    method Await(others: seq<Event>)
      requires Valid() && Others(others, me)
      modifies this, members, invitations
      ensures Valid() && Now() == Exec(old(Now()), others) && agents[me] == old(agents[me])
    {
      OthersLeaveMe(Now(), others, me);
      var next := Exec(World(Members(members.byKey, members.byMemberId, members.bootstrapCompleted),
                             Invitations(invitations.byId, invitations.byTokenHash), now, agents), others);
      members.byKey, members.byMemberId, members.bootstrapCompleted :=
        next.members.byKey, next.members.byMemberId, next.members.bootstrapped;
      invitations.byId, invitations.byTokenHash := next.invitations.byId, next.invitations.byToken;
      now, agents := next.now, next.agents;
    }

    /** The call has come to this place. */
    method At(local: Local)
      requires Valid()
      modifies this`agents
      ensures Valid() && agents == old(agents)[me := local]
    {
      agents := agents[me := local];
    }

    method AddMember(member: Membership, others: seq<Event>) returns (ok: bool)
      requires Valid() && agents[me].Idle? && Others(others, me)
      modifies this, members, invitations
      ensures Valid() && agents[me] == Done(ok)
      ensures Now() == RunCall(old(Now()), me, MembershipService.AddMember(member), [others])
    {
      var existing := members.GetMember(member.tenant, member.user);
      if existing.Some? {
        At(Done(false));
        return false;
      }
      At(Adding(member));
      DriveLast(Now(), me, others);
      Await(others);
      var reply := members.CreateMember(member);
      ok := reply.Ok?;
      At(Done(ok));
    }

    method BootstrapOwner(tenant: string, user: string, memberId: int) returns (ok: bool)
      requires Valid() && agents[me].Idle?
      modifies this, members
      ensures Valid() && agents[me] == Done(ok)
      ensures Now() == RunCall(old(Now()), me, MembershipService.BootstrapOwner(tenant, user, memberId), [])
    {
      var reply := members.Bootstrap(tenant, user, memberId);
      ok := reply.Ok?;
      At(Done(ok));
    }

    /** The conditional write under the version that was read, or the one supplied. */
    method WriteChanges(current: Membership, changes: Changes, supplied: Option<nat>, others: seq<Event>) returns (ok: bool)
      requires Valid() && agents[me] == Changing(current, changes, supplied) && Others(others, me)
      modifies this, members, invitations
      ensures Valid() && agents[me] == Done(ok)
      ensures Now() == Drive(old(Now()), me, [others])
    {
      hide Drive, Exec;
      DriveLast(Now(), me, others);
      var expectedVersion := if supplied.Some? then supplied.value else current.version;
      Await(others);
      var reply := members.UpdateMember(current.tenant, current.user, changes, expectedVersion);
      ok := reply.Ok?;
      At(Done(ok));
    }

    method UpdateMember(memberId: int, role: Option<int>, status: Option<MemberStatus>, supplied: Option<nat>,
                        others: seq<Event>)
      returns (ok: bool)
      requires Valid() && agents[me].Idle? && Others(others, me)
      modifies this, members, invitations
      ensures Valid() && agents[me] == Done(ok)
      ensures Now() == RunCall(old(Now()), me, MembershipService.UpdateMember(memberId, role, status, supplied), [others])
    {
      hide Drive, Exec;
      var current := members.GetMemberById(memberId);
      if current.None? || current.value.status == Removed || (status.Some? && !Edge(current.value.status, status.value)) {
        At(Done(false));
        DriveDone(Now(), me, [others]);
        return false;
      }
      var changes := Changes(role, status, None);
      At(Changing(current.value, changes, supplied));
      ok := WriteChanges(current.value, changes, supplied, others);
    }

    method RemoveMember(memberId: int, supplied: Option<nat>, others: seq<Event>) returns (ok: bool)
      requires Valid() && agents[me].Idle? && Others(others, me)
      modifies this, members, invitations
      ensures Valid() && agents[me] == Done(ok)
      ensures Now() == RunCall(old(Now()), me, MembershipService.RemoveMember(memberId, supplied), [others])
    {
      hide Drive, Exec;
      var current := members.GetMemberById(memberId);
      if current.None? || current.value.status == Removed {
        ok := current.Some?;
        At(Done(ok));
        DriveDone(Now(), me, [others]);
        return;
      }
      var changes := Changes(None, Some(Removed), None);
      At(Changing(current.value, changes, supplied));
      ok := WriteChanges(current.value, changes, supplied, others);
    }

    method InviteMember(tenant: string, id: int, token: int, role: int) returns (ok: bool)
      requires Valid() && agents[me].Idle?
      modifies this, invitations
      ensures Valid() && agents[me] == Done(ok)
      ensures Now() == RunCall(old(Now()), me, MembershipService.InviteMember(tenant, id, token, role), [])
    {
      var expiresAt := now + INVITATION_TTL;
      var reply := invitations.CreateInvitation(Invitation(tenant, id, token, role, Open, expiresAt, None, None, 1));
      ok := reply.Ok?;
      At(Done(ok));
    }

    method CancelInvitation(id: int, others: seq<Event>) returns (ok: bool)
      requires Valid() && agents[me].Idle? && Others(others, me) && IdsMatch(invitations.Contents())
      modifies this, members, invitations
      ensures Valid() && agents[me] == Done(ok)
      ensures Now() == RunCall(old(Now()), me, MembershipService.CancelInvitation(id), [others])
    {
      hide Drive, Exec;
      var existing := invitations.GetInvitation(id);
      if existing.None? || existing.value.status != Open {
        At(Done(false));
        DriveDone(Now(), me, [others]);
        return false;
      }
      At(Cancelling(existing.value));
      DriveLast(Now(), me, others);
      Await(others);
      var reply := invitations.CancelInvitation(id, existing.value.version);
      ok := reply.Ok?;
      At(Done(ok));
    }

    method AcceptInvitation(token: int, user: string, memberId: int, others: seq<Event>, later: seq<Event>, last: seq<Event>)
      returns (ok: bool)
      requires Valid() && agents[me].Idle? && Others(others, me) && Others(later, me) && Others(last, me)
      modifies this, members, invitations
      ensures Valid() && agents[me] == Done(ok)
      ensures Now() == RunCall(old(Now()), me, MembershipService.AcceptInvitation(token, user, memberId), [others, later, last])
    {
      hide Drive, Exec;
      var invitation := invitations.GetInvitationByToken(token);
      if invitation.None? || invitation.value.status != Open || invitation.value.expiresAt <= now {
        At(Done(false));
        DriveDone(Now(), me, [others, later, last]);
        return false;
      }
      var at := now;
      At(Accepting(invitation.value, user, memberId, at));
      DriveStep(Now(), me, others, [later, last]);
      assert [others] + [later, last] == [others, later, last];
      Await(others);
      var reply := invitations.AcceptInvitation(invitation.value.id, user, at);
      if !reply.Ok? {
        At(Done(false));
        DriveDone(Now(), me, [later, last]);
        return false;
      }
      At(Activating(reply.value, user, memberId));
      DriveStep(Now(), me, later, [last]);
      assert [later] + [last] == [later, last];
      Await(later);
      ok := ActivateMembershipFromInvitation(reply.value, user, memberId, last);
    }

    method ActivateMembershipFromInvitation(invitation: Invitation, user: string, memberId: int, others: seq<Event>)
      returns (ok: bool)
      requires Valid() && agents[me] == Activating(invitation, user, memberId) && Others(others, me)
      modifies this, members, invitations
      ensures Valid() && agents[me] == Done(ok)
      ensures Now() == Drive(Step(old(Now()), Proceed(me)), me, [others])
    {
      var existing := members.GetMember(invitation.tenant, user);
      if existing.None? {
        var member := Membership(invitation.tenant, user, memberId, invitation.role, Active, Some(invitation.id), 1);
        At(Creating(member));
        DriveLast(Now(), me, others);
        Await(others);
        var reply := members.CreateMember(member);
        ok := reply.Ok?;
        At(Done(ok));
      } else if existing.value.status == Removed {
        ok := false;
        At(Done(false));
      } else {
        var changes := Changes(Some(invitation.role), Some(Active), Some(invitation.id));
        At(Reactivating(existing.value, changes));
        DriveLast(Now(), me, others);
        Await(others);
        var reply := members.UpdateMember(existing.value.tenant, existing.value.user, changes, existing.value.version);
        ok := reply.Ok?;
        At(Done(ok));
      }
    }
  }
}
