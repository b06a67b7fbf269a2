/** The membership and invitation service over all interleavings of its calls: each call reads, checks
    and then writes, and anything can happen in between. */
module MembershipService {
  import Runs
  import opened JobModels
  import opened Ordering
  import opened MembershipStore

  /** Generated ids and tokens are parameters of the calls. A supplied version replaces the one read. */
  datatype Call =
    | AddMember(member: Membership)
    | BootstrapOwner(tenant: string, user: string, memberId: int)
    | UpdateMember(memberId: int, newRole: Option<int>, newStatus: Option<MemberStatus>, supplied: Option<nat>)
    | RemoveMember(memberId: int, supplied: Option<nat>)
    | InviteMember(tenant: string, id: int, token: int, role: int)
    | CancelInvitation(id: int)
    | AcceptInvitation(token: int, user: string, memberId: int)

  /** Where a call stands, with what it has read. */
  datatype Local =
    | Idle
    | Adding(member: Membership)
    | Changing(copy: Membership, changes: Changes, supplied: Option<nat>)
    | Cancelling(invitation: Invitation)
    | Accepting(invitation: Invitation, user: string, memberId: int, at: int)
    | Activating(invitation: Invitation, user: string, memberId: int)
    | Reactivating(copy: Membership, changes: Changes)
    | Creating(member: Membership)
    | Done(ok: bool)

  datatype World = World(members: Members, invitations: Invitations, now: int, agents: seq<Local>)

  datatype Event = Begin(agent: nat, call: Call) | Proceed(agent: nat) | Tick(elapsed: nat)

  const INVITATION_TTL := 604800000

  predicate Edge(before: MemberStatus, after: MemberStatus) {
    match before
    case Pending => after in {Active, Removed}
    case Active => after in {Suspended, Removed}
    case Suspended => after in {Active, Removed}
    case Removed => false
  }

  function Start(w: World, call: Call): (Members, Invitations, Local) {
    var idle := (w.members, w.invitations, Done(false));
    match call
    case AddMember(member) =>
      if Get(w.members, member.tenant, member.user).Some? then idle
      else (w.members, w.invitations, Adding(member))
    case BootstrapOwner(tenant, user, id) =>
      var (members, reply) := BootstrapFirstOwner(w.members, tenant, user, id);
      (members, w.invitations, Done(reply.Ok?))
    case UpdateMember(id, role, status, supplied) =>
      var current := GetByMemberId(w.members, id);
      if current.None? || current.value.status == Removed then idle
      else if status.Some? && !Edge(current.value.status, status.value) then idle
      else (w.members, w.invitations, Changing(current.value, Changes(role, status, None), supplied))
    case RemoveMember(id, supplied) =>
      var current := GetByMemberId(w.members, id);
      if current.None? then idle
      else if current.value.status == Removed then (w.members, w.invitations, Done(true))
      else (w.members, w.invitations, Changing(current.value, Changes(None, Some(Removed), None), supplied))
    case InviteMember(tenant, id, token, role) =>
      var (invitations, reply) :=
        Invite(w.invitations, Invitation(tenant, id, token, role, Open, w.now + INVITATION_TTL, None, None, 1));
      (w.members, invitations, Done(reply.Ok?))
    case CancelInvitation(id) =>
      if id !in w.invitations.byId || w.invitations.byId[id].status != Open then idle
      else (w.members, w.invitations, Cancelling(w.invitations.byId[id]))
    case AcceptInvitation(token, user, memberId) =>
      var found := GetByToken(w.invitations, token);
      if found.None? || found.value.status != Open || found.value.expiresAt <= w.now then idle
      else (w.members, w.invitations, Accepting(found.value, user, memberId, w.now))
  }

  function Continue(w: World, local: Local): (Members, Invitations, Local) {
    match local
    case Adding(member) =>
      var (members, reply) := Create(w.members, member);
      (members, w.invitations, Done(reply.Ok?))
    case Changing(copy, changes, supplied) =>
      var expected := if supplied.Some? then supplied.value else copy.version;
      var (members, reply) := Update(w.members, copy.tenant, copy.user, changes, expected);
      (members, w.invitations, Done(reply.Ok?))
    case Cancelling(invitation) =>
      var (invitations, reply) := Cancel(w.invitations, invitation.id, invitation.version);
      (w.members, invitations, Done(reply.Ok?))
    case Accepting(invitation, user, memberId, at) =>
      var (invitations, reply) := MarkAccepted(w.invitations, invitation.id, user, at);
      (w.members, invitations, if reply.Ok? then Activating(reply.value, user, memberId) else Done(false))
    case Activating(invitation, user, memberId) =>
      var existing := Get(w.members, invitation.tenant, user);
      (w.members, w.invitations,
       if existing.None? then
         Creating(Membership(invitation.tenant, user, memberId, invitation.role, Active, Some(invitation.id), 1))
       else if existing.value.status == Removed then Done(false)
       else Reactivating(existing.value, Changes(Some(invitation.role), Some(Active), Some(invitation.id))))
    case Reactivating(copy, changes) =>
      var (members, reply) := Update(w.members, copy.tenant, copy.user, changes, copy.version);
      (members, w.invitations, Done(reply.Ok?))
    case Creating(member) =>
      var (members, reply) := Create(w.members, member);
      (members, w.invitations, Done(reply.Ok?))
    case Idle => (w.members, w.invitations, Idle)
    case Done(ok) => (w.members, w.invitations, local)
  }

  function Step(w: World, e: Event): World {
    match e
    case Tick(elapsed) => w.(now := w.now + elapsed)
    case Begin(agent, call) =>
      if agent >= |w.agents| || !w.agents[agent].Idle? then w
      else
        var (members, invitations, local) := Start(w, call);
        World(members, invitations, w.now, w.agents[agent := local])
    case Proceed(agent) =>
      if agent >= |w.agents| then w
      else
        var (members, invitations, local) := Continue(w, w.agents[agent]);
        World(members, invitations, w.now, w.agents[agent := local])
  }

  function Exec(w: World, events: seq<Event>): World
    decreases |events|
  {
    if events == [] then w else Exec(Step(w, events[0]), events[1..])
  }

  lemma ExecJoin(w: World, first: seq<Event>, second: seq<Event>)
    ensures Exec(w, first + second) == Exec(Exec(w, first), second)
  {
    Runs.RunJoin(Step, Exec, w, first, second);
  }

  predicate Others(events: seq<Event>, me: nat) {
    forall i :: 0 <= i < |events| ==>
      && (events[i].Begin? ==> events[i].agent != me)
      && (events[i].Proceed? ==> events[i].agent != me)
  }

  lemma {:induction false} OthersLeaveMe(w: World, events: seq<Event>, me: nat)
    requires Others(events, me) && me < |w.agents|
    ensures |Exec(w, events).agents| == |w.agents| && Exec(w, events).agents[me] == w.agents[me]
    decreases |events|
  {
    if events != [] {
      var e := events[0];
      assert |Step(w, e).agents| == |w.agents| && Step(w, e).agents[me] == w.agents[me];
      OthersLeaveMe(Step(w, e), events[1..], me);
    }
  }

  predicate Initial(w: World) {
    && w.members == Members(map[], map[], {}) && w.invitations == Invitations(map[], map[])
    && forall i :: 0 <= i < |w.agents| ==> w.agents[i].Idle?
  }

  /** A version that a call supplies is no newer than the record it is about: the caller has seen it. */
  predicate SeenVersion(w: World, e: Event) {
    e.Begin? && (e.call.UpdateMember? || e.call.RemoveMember?) && e.call.supplied.Some? ==>
      var current := GetByMemberId(w.members, e.call.memberId);
      current.Some? ==> e.call.supplied.value <= current.value.version
  }

  predicate SeenVersions(w: World, events: seq<Event>)
    decreases |events|
  {
    events != [] ==> SeenVersion(w, events[0]) && SeenVersions(Step(w, events[0]), events[1..])
  }

  // ----- members

  /** What one step may do to a record: nothing, or a new version of the same member whose status stays or
      takes an allowed edge; a removed member is never touched. */
  predicate Follows(before: Membership, after: Membership) {
    before == after || (
      && after.version == before.version + 1
      && (after.tenant, after.user, after.memberId) == (before.tenant, before.user, before.memberId)
      && before.status != Removed
      && (after.status == before.status || Edge(before.status, after.status)))
  }

  predicate MembersFollow(s: Members, s': Members) {
    forall key :: key in s.byKey ==> key in s'.byKey && Follows(s.byKey[key], s'.byKey[key])
  }

  predicate KeysMatch(s: Members) { forall key :: key in s.byKey ==> Key(s.byKey[key].tenant, s.byKey[key].user) == key }

  /** A copy that was read: it is the stored record or older than it. */
  predicate MemberCopy(s: Members, copy: Membership) {
    var key := Key(copy.tenant, copy.user);
    && key in s.byKey
    && copy.version <= s.byKey[key].version
    && (copy.version == s.byKey[key].version ==> copy == s.byKey[key])
  }

  predicate MemberLocalOk(s: Members, local: Local) {
    match local
    case Changing(copy, changes, supplied) =>
      && MemberCopy(s, copy) && (supplied.Some? ==> supplied.value <= copy.version) && copy.status != Removed
      && (changes.status.Some? ==> Edge(copy.status, changes.status.value))
    case Reactivating(copy, changes) =>
      MemberCopy(s, copy) && copy.status != Removed && changes.status == Some(Active)
    case _ => true
  }

  predicate MembersOk(w: World) {
    KeysMatch(w.members) && forall i :: 0 <= i < |w.agents| ==> MemberLocalOk(w.members, w.agents[i])
  }

  lemma CopyKept(s: Members, s': Members, copy: Membership)
    requires MemberCopy(s, copy) && MembersFollow(s, s')
    ensures MemberCopy(s', copy)
  {
    assert Key(copy.tenant, copy.user) in s.byKey;
  }

  lemma LocalKept(s: Members, s': Members, local: Local)
    requires MemberLocalOk(s, local) && MembersFollow(s, s')
    ensures MemberLocalOk(s', local)
  {
    if local.Changing? || local.Reactivating? { CopyKept(s, s', local.copy); }
  }

  lemma StartMembers(w: World, call: Call)
    requires KeysMatch(w.members) && SeenVersion(w, Begin(0, call))
    ensures var (members, _, local) := Start(w, call);
            KeysMatch(members) && MembersFollow(w.members, members) && MemberLocalOk(members, local)
  {
  }

  lemma ContinueMembers(w: World, local: Local)
    requires KeysMatch(w.members) && MemberLocalOk(w.members, local)
    ensures var (members, _, next) := Continue(w, local);
            KeysMatch(members) && MembersFollow(w.members, members) && MemberLocalOk(members, next)
  {
  }

  lemma StepMembers(w: World, e: Event)
    requires MembersOk(w) && SeenVersion(w, e)
    ensures MembersOk(Step(w, e)) && MembersFollow(w.members, Step(w, e).members)
  {
    if e.Begin? {
      StartMembers(w, e.call);
    } else if e.Proceed? && e.agent < |w.agents| {
      ContinueMembers(w, w.agents[e.agent]);
    }
    var w' := Step(w, e);
    assert MembersFollow(w.members, w'.members);
    forall i | 0 <= i < |w'.agents| ensures MemberLocalOk(w'.members, w'.agents[i]) {
      LocalKept(w.members, w'.members, w.agents[i]);
    }
  }

  lemma {:induction false} ExecMembers(w: World, events: seq<Event>)
    requires MembersOk(w) && SeenVersions(w, events)
    ensures MembersOk(Exec(w, events))
    decreases |events|
  {
    if events != [] {
      StepMembers(w, events[0]);
      ExecMembers(Step(w, events[0]), events[1..]);
    }
  }

  /** Over all interleavings: every step leaves a member's status or moves it along an allowed edge. */
  lemma StatusTakesAllowedEdges(w: World, events: seq<Event>, e: Event, key: string)
    requires Initial(w) && SeenVersions(w, events) && SeenVersion(Exec(w, events), e) && key in Exec(w, events).members.byKey
    ensures key in Step(Exec(w, events), e).members.byKey
    ensures Follows(Exec(w, events).members.byKey[key], Step(Exec(w, events), e).members.byKey[key])
  {
    ExecMembers(w, events);
    StepMembers(Exec(w, events), e);
  }

  lemma {:induction false} RemovedStays(w: World, events: seq<Event>, key: string)
    requires MembersOk(w) && SeenVersions(w, events) && key in w.members.byKey && w.members.byKey[key].status == Removed
    ensures key in Exec(w, events).members.byKey && Exec(w, events).members.byKey[key] == w.members.byKey[key]
    decreases |events|
  {
    if events != [] {
      StepMembers(w, events[0]);
      RemovedStays(Step(w, events[0]), events[1..], key);
    }
  }

  /** A removed member's record never changes again. */
  lemma RemovedIsFinal(w: World, first: seq<Event>, second: seq<Event>, key: string)
    requires Initial(w) && SeenVersions(w, first) && SeenVersions(Exec(w, first), second) && key in Exec(w, first).members.byKey
    requires Exec(w, first).members.byKey[key].status == Removed
    ensures key in Exec(Exec(w, first), second).members.byKey
    ensures Exec(Exec(w, first), second).members.byKey[key] == Exec(w, first).members.byKey[key]
  {
    ExecMembers(w, first);
    RemovedStays(Exec(w, first), second, key);
  }

  /** Without that it can: a version guessed ahead of the record suspends a member who was removed
      between the read and the write. */
  lemma FutureVersionRevives(member: Membership)
    requires member.status == Active
    ensures var w := World(Members(map[], map[], {}), Invitations(map[], map[]), 0, [Idle, Idle, Idle]);
            var first := [Begin(0, AddMember(member)), Proceed(0),
                          Begin(1, UpdateMember(member.memberId, None, Some(Suspended), Some(2))),
                          Begin(2, RemoveMember(member.memberId, None)), Proceed(2)];
            var key := Key(member.tenant, member.user);
            && Initial(w)
            && Get(Exec(w, first).members, member.tenant, member.user) == Some(member.(status := Removed, version := 2))
            && Get(Step(Exec(w, first), Proceed(1)).members, member.tenant, member.user) ==
               Some(member.(status := Suspended, version := 3))
  {
    var w := World(Members(map[], map[], {}), Invitations(map[], map[]), 0, [Idle, Idle, Idle]);
    var key, m := Key(member.tenant, member.user), member.(version := 1);
    var change := Changing(m, Changes(None, Some(Suspended), None), Some(2));
    var remove := Changing(m, Changes(None, Some(Removed), None), None);
    var stored := Put(w.members, m);
    var e0, e1 := Begin(0, AddMember(member)), Proceed(0);
    var e2 := Begin(1, UpdateMember(member.memberId, None, Some(Suspended), Some(2)));
    var e3, e4 := Begin(2, RemoveMember(member.memberId, None)), Proceed(2);
    var w1 := w.(agents := [Adding(member), Idle, Idle]);
    var w2 := w.(members := stored, agents := [Done(true), Idle, Idle]);
    var w3 := w2.(agents := [Done(true), change, Idle]);
    var w4 := w2.(agents := [Done(true), change, remove]);
    assert Step(w, e0) == w1 && Step(w1, e1) == w2;
    assert GetByMemberId(stored, member.memberId) == Some(m);
    assert Step(w2, e2) == w3 && Step(w3, e3) == w4;
    ExecFive(w, w1, w2, w3, w4, [e0, e1, e2, e3, e4]);
  }

  predicate IsRemoved(w: World, m: Membership) {
    var stored := Get(w.members, m.tenant, m.user);
    stored.Some? && stored.value.status == Removed
  }

  /** A pending change of status takes a removed member out of REMOVED exactly when the stored version is
      the one it expects. */
  lemma PendingRevivesIff(w: World, i: nat, copy: Membership, changes: Changes, supplied: nat)
    requires i < |w.agents| && w.agents[i] == Changing(copy, changes, Some(supplied)) && IsRemoved(w, copy)
    requires changes.status.Some? && changes.status.value != Removed
    ensures !IsRemoved(Step(w, Proceed(i)), copy) <==> w.members.byKey[Key(copy.tenant, copy.user)].version == supplied
  {
  }

  /** A call that has just read the member and checked a change of status. */
  predicate JustRead(w: World, i: nat, copy: Membership, changes: Changes, supplied: nat) {
    && i < |w.agents| && w.agents[i] == Changing(copy, changes, Some(supplied))
    && GetByMemberId(w.members, copy.memberId) == Some(copy) && copy.status != Removed
    && changes.status.Some? && Edge(copy.status, changes.status.value) && changes.status.value != Removed
    && KeysMatch(w.members)
    && forall j :: 0 <= j < |w.agents| && j != i ==> MemberLocalOk(w.members, w.agents[j])
  }

  ghost predicate Helpers(w: World, i: nat, helpers: seq<nat>) {
    && Distinct(helpers)
    && forall h :: h in helpers ==> h < |w.agents| && h != i && w.agents[h].Idle?
  }

  /** The others take only versions they have seen, and the member is removed when the call writes; the
      write brings the member back. */
  predicate Revives(w: World, i: nat, copy: Membership, events: seq<Event>) {
    && Others(events, i) && SeenVersions(w, events)
    && IsRemoved(Exec(w, events), copy) && !IsRemoved(Step(Exec(w, events), Proceed(i)), copy)
  }

  lemma NotAheadCannotRevive(w: World, i: nat, copy: Membership, changes: Changes, supplied: nat, events: seq<Event>)
    requires JustRead(w, i, copy, changes, supplied) && supplied <= copy.version
    ensures !Revives(w, i, copy, events)
  {
    if Revives(w, i, copy, events) {
      assert MembersOk(w) by {
        forall j | 0 <= j < |w.agents| ensures MemberLocalOk(w.members, w.agents[j]) {
        }
      }
      ExecMembers(w, events);
      StepMembers(Exec(w, events), Proceed(i));
    }
  }

  function Bump(h: nat, m: Membership): seq<Event> {
    [Begin(h, UpdateMember(m.memberId, Some(m.role), None, None)), Proceed(h)]
  }

  /** Another caller raises the version by setting the role again. */
  lemma BumpOnce(w: World, h: nat, m: Membership)
    requires h < |w.agents| && w.agents[h].Idle? && KeysMatch(w.members)
    requires GetByMemberId(w.members, m.memberId) == Some(m) && m.status != Removed
    ensures var after := Exec(w, Bump(h, m));
            && GetByMemberId(after.members, m.memberId) == Some(m.(version := m.version + 1))
            && KeysMatch(after.members) && after.agents == w.agents[h := Done(true)]
    ensures SeenVersions(w, Bump(h, m))
  {
    ExecTwo(w, Bump(h, m));
  }

  lemma RemoveOnce(w: World, h: nat, m: Membership)
    requires h < |w.agents| && w.agents[h].Idle? && KeysMatch(w.members)
    requires GetByMemberId(w.members, m.memberId) == Some(m) && m.status != Removed
    ensures var events := [Begin(h, RemoveMember(m.memberId, None)), Proceed(h)];
            var after := Exec(w, events);
            && Get(after.members, m.tenant, m.user) == Some(m.(status := Removed, version := m.version + 1))
            && after.agents == w.agents[h := Done(true)]
            && SeenVersions(w, events)
  {
    ExecTwo(w, [Begin(h, RemoveMember(m.memberId, None)), Proceed(h)]);
  }

  lemma ExecTwo(w: World, events: seq<Event>)
    requires |events| == 2
    ensures Exec(w, events) == Step(Step(w, events[0]), events[1])
    ensures SeenVersions(w, events) <==> SeenVersion(w, events[0]) && SeenVersion(Step(w, events[0]), events[1])
  {
    var w1 := Step(w, events[0]);
    assert Exec(w1, events[1..]) == Exec(Step(w1, events[1]), events[1..][1..]);
    assert SeenVersions(w1, events[1..]) <==> SeenVersion(w1, events[1]) && SeenVersions(Step(w1, events[1]), events[1..][1..]);
  }

  lemma {:induction false} SeenJoin(w: World, first: seq<Event>, second: seq<Event>)
    requires SeenVersions(w, first) && SeenVersions(Exec(w, first), second)
    ensures SeenVersions(w, first + second)
    decreases |first|
  {
    if first == [] {
      assert first + second == second;
    } else {
      assert (first + second)[1..] == first[1..] + second;
      SeenJoin(Step(w, first[0]), first[1..], second);
    }
  }

  /** The helpers raise the version as often as it takes, and the last removes the member. */
  lemma {:induction false} RemovedAtVersion(w: World, i: nat, m: Membership, helpers: seq<nat>, version: nat) returns (events: seq<Event>)
    requires KeysMatch(w.members) && GetByMemberId(w.members, m.memberId) == Some(m) && m.status != Removed
    requires Helpers(w, i, helpers) && m.version < version <= m.version + |helpers| && i < |w.agents|
    ensures Others(events, i) && SeenVersions(w, events)
    ensures Get(Exec(w, events).members, m.tenant, m.user) == Some(m.(status := Removed, version := version))
    ensures |Exec(w, events).agents| == |w.agents| && Exec(w, events).agents[i] == w.agents[i]
    decreases |helpers|
  {
    var h := helpers[0];
    assert h in helpers;
    if version == m.version + 1 {
      events := [Begin(h, RemoveMember(m.memberId, None)), Proceed(h)];
      RemoveOnce(w, h, m);
    } else {
      BumpOnce(w, h, m);
      var w1 := Exec(w, Bump(h, m));
      forall other | other in helpers[1..] ensures other < |w1.agents| && other != i && w1.agents[other].Idle? {
        assert other in helpers && other != h;
      }
      var rest := RemovedAtVersion(w1, i, m.(version := m.version + 1), helpers[1..], version);
      events := Bump(h, m) + rest;
      ExecJoin(w, Bump(h, m), rest);
      SeenJoin(w, Bump(h, m), rest);
    }
  }

  /** With enough idle callers, some continuation brings a removed member back through this call exactly
      when the version it was given is ahead of the one it read. */
  lemma RevivesIffAhead(w: World, i: nat, copy: Membership, changes: Changes, supplied: nat, helpers: seq<nat>)
    requires JustRead(w, i, copy, changes, supplied)
    requires Helpers(w, i, helpers) && supplied <= copy.version + |helpers|
    ensures (exists events :: Revives(w, i, copy, events)) <==> supplied > copy.version
  {
    if supplied > copy.version {
      var events := RemovedAtVersion(w, i, copy, helpers, supplied);
      PendingRevivesIff(Exec(w, events), i, copy, changes, supplied);
      assert Revives(w, i, copy, events);
    } else {
      forall events ensures !Revives(w, i, copy, events) {
        NotAheadCannotRevive(w, i, copy, changes, supplied, events);
      }
    }
  }

  lemma ExecFive(w: World, w1: World, w2: World, w3: World, w4: World, events: seq<Event>)
    requires |events| == 5 && Step(w, events[0]) == w1 && Step(w1, events[1]) == w2
    requires Step(w2, events[2]) == w3 && Step(w3, events[3]) == w4
    ensures Exec(w, events) == Step(w4, events[4])
  {
    hide Step;
    assert Exec(w, events) == Exec(w1, events[1..]);
    assert Exec(w1, events[1..]) == Exec(w2, events[2..]);
    assert Exec(w2, events[2..]) == Exec(w3, events[3..]);
    assert Exec(w3, events[3..]) == Exec(w4, events[4..]);
    assert Exec(w4, events[4..]) == Exec(Step(w4, events[4]), events[5..]);
  }

  // ----- invitations

  /** An invitation changes only while it is open, and then once. */
  predicate InvitationFollows(before: Invitation, after: Invitation) {
    before == after || (
      && before.status == Open && after.status in {Accepted, Cancelled}
      && after.version == before.version + 1 && after.expiresAt == before.expiresAt
      && (after.status == Accepted ==> after.acceptedAt.Some? && after.acceptedAt.value < after.expiresAt))
  }

  predicate InvitationsFollow(s: Invitations, s': Invitations) {
    forall id :: id in s.byId ==> id in s'.byId && InvitationFollows(s.byId[id], s'.byId[id])
  }

  predicate InvitationLocalOk(s: Invitations, local: Local) {
    local.Cancelling? ==>
      var i := local.invitation;
      && i.status == Open && i.id in s.byId
      && i.version <= s.byId[i.id].version
      && (i.version == s.byId[i.id].version ==> i == s.byId[i.id])
  }

  predicate InvitationsOk(w: World) {
    && (forall id :: id in w.invitations.byId ==> InvitationOk(w.invitations.byId[id], id))
    && forall i :: 0 <= i < |w.agents| ==> InvitationLocalOk(w.invitations, w.agents[i])
  }

  predicate InvitationOk(i: Invitation, id: int) {
    && i.id == id
    && (i.status == Accepted ==> i.acceptedAt.Some? && i.acceptedAt.value < i.expiresAt)
  }

  lemma StepInvitations(w: World, e: Event)
    requires InvitationsOk(w)
    ensures InvitationsOk(Step(w, e)) && InvitationsFollow(w.invitations, Step(w, e).invitations)
  {
    var w' := Step(w, e);
    assert InvitationsFollow(w.invitations, w'.invitations);
    forall id | id in w'.invitations.byId ensures InvitationOk(w'.invitations.byId[id], id) {
      if id in w.invitations.byId { assert InvitationOk(w.invitations.byId[id], id); }
    }
    forall i | 0 <= i < |w'.agents| ensures InvitationLocalOk(w'.invitations, w'.agents[i]) {
      assert InvitationLocalOk(w.invitations, w.agents[i]);
    }
  }

  lemma {:induction false} ExecInvitations(w: World, events: seq<Event>)
    requires InvitationsOk(w)
    ensures InvitationsOk(Exec(w, events))
    ensures forall id :: id in w.invitations.byId && w.invitations.byId[id].status != Open ==>
              id in Exec(w, events).invitations.byId && Exec(w, events).invitations.byId[id] == w.invitations.byId[id]
    decreases |events|
  {
    if events != [] {
      StepInvitations(w, events[0]);
      ExecInvitations(Step(w, events[0]), events[1..]);
    }
  }

  /** An accepted or cancelled invitation never changes again. */
  lemma InvitationIsSettledOnce(w: World, first: seq<Event>, second: seq<Event>, id: int)
    requires Initial(w) && id in Exec(w, first).invitations.byId && Exec(w, first).invitations.byId[id].status != Open
    ensures id in Exec(Exec(w, first), second).invitations.byId
    ensures Exec(Exec(w, first), second).invitations.byId[id] == Exec(w, first).invitations.byId[id]
  {
    ExecInvitations(w, first);
    ExecInvitations(Exec(w, first), second);
  }

  /** The invitation is stored as accepted by the user. */
  predicate AcceptedBy(s: Invitations, i: Invitation, user: string) {
    i.id in s.byId && s.byId[i.id] == i && i.status == Accepted && i.acceptedBy == Some(user)
  }

  /** A call that is about to write a member for an invitation holds one that was accepted. */
  predicate ActivationOk(s: Invitations, local: Local) {
    match local
    case Activating(i, user, _) => AcceptedBy(s, i, user)
    case Creating(member) =>
      && member.invitation.Some? && member.invitation.value in s.byId && member.status == Active
      && var i := s.byId[member.invitation.value];
      && AcceptedBy(s, i, member.user) && member.tenant == i.tenant && member.role == i.role
    case Reactivating(copy, changes) =>
      && changes.invitation.Some? && changes.invitation.value in s.byId
      && var i := s.byId[changes.invitation.value];
      && i.status == Accepted && changes.role == Some(i.role) && changes.status == Some(Active)
    case _ => true
  }

  predicate ActivationsOk(w: World) {
    forall i :: 0 <= i < |w.agents| ==> ActivationOk(w.invitations, w.agents[i])
  }

  lemma ActivationStays(s: Invitations, s': Invitations, local: Local)
    requires ActivationOk(s, local) && InvitationsFollow(s, s')
    ensures ActivationOk(s', local)
  {
    forall id | id in s.byId && s.byId[id].status == Accepted ensures id in s'.byId && s'.byId[id] == s.byId[id] {
      assert InvitationFollows(s.byId[id], s'.byId[id]);
    }
  }

  lemma ActivationNext(w: World, local: Local)
    requires (forall id :: id in w.invitations.byId ==> w.invitations.byId[id].id == id) && ActivationOk(w.invitations, local)
    ensures var (_, invitations, next) := Continue(w, local); ActivationOk(invitations, next)
  {
  }

  lemma StepActivations(w: World, e: Event)
    requires InvitationsOk(w) && ActivationsOk(w)
    ensures ActivationsOk(Step(w, e))
  {
    StepInvitations(w, e);
    var w' := Step(w, e);
    forall id | id in w.invitations.byId ensures w.invitations.byId[id].id == id {
      assert InvitationOk(w.invitations.byId[id], id);
    }
    forall i | 0 <= i < |w'.agents| ensures ActivationOk(w'.invitations, w'.agents[i]) {
      assert ActivationOk(w.invitations, w.agents[i]);
      if e.Proceed? && e.agent == i {
        ActivationNext(w, w.agents[i]);
      } else if w'.agents[i] == w.agents[i] {
        ActivationStays(w.invitations, w'.invitations, w.agents[i]);
      }
    }
  }

  lemma {:induction false} ExecActivations(w: World, events: seq<Event>)
    requires InvitationsOk(w) && ActivationsOk(w)
    ensures InvitationsOk(Exec(w, events)) && ActivationsOk(Exec(w, events))
    decreases |events|
  {
    if events != [] {
      StepInvitations(w, events[0]);
      StepActivations(w, events[0]);
      ExecActivations(Step(w, events[0]), events[1..]);
    }
  }

  /** Over all interleavings: a call that is about to make a member out of an invitation holds an invitation that is
      stored as accepted, by the very user where a new member is made, with its tenant and role. */
  lemma OnlyAcceptedActivates(w: World, events: seq<Event>, me: nat)
    requires Initial(w) && me < |Exec(w, events).agents|
    ensures ActivationOk(Exec(w, events).invitations, Exec(w, events).agents[me])
  {
    ExecActivations(w, events);
  }

  /** The recorded time of every acceptance is before the expiry. */
  lemma AcceptedBeforeExpiry(w: World, events: seq<Event>, id: int)
    requires Initial(w) && id in Exec(w, events).invitations.byId && Exec(w, events).invitations.byId[id].status == Accepted
    ensures var i := Exec(w, events).invitations.byId[id];
            i.acceptedAt.Some? && i.acceptedAt.value < i.expiresAt
  {
    ExecInvitations(w, events);
    assert InvitationOk(Exec(w, events).invitations.byId[id], id);
  }

  /** An invitation leaves OPEN with this event. */
  predicate Settles(w: World, e: Event, id: int) {
    && id in w.invitations.byId && w.invitations.byId[id].status == Open
    && id in Step(w, e).invitations.byId && Step(w, e).invitations.byId[id].status != Open
  }

  /** How many calls were told that they accepted or cancelled the invitation. */
  function CountSuccesses(w: World, events: seq<Event>, id: int): nat
    decreases |events|
  {
    if events == [] then 0
    else (if Succeeds(w, events[0], id) then 1 else 0) + CountSuccesses(Step(w, events[0]), events[1..], id)
  }

  /** The event is the write of an accept or cancel call for the invitation, and the write goes through. */
  predicate Succeeds(w: World, e: Event, id: int) {
    && e.Proceed? && e.agent < |w.agents|
    && match w.agents[e.agent]
       case Cancelling(i) => i.id == id && Cancel(w.invitations, id, i.version).1.Ok?
       case Accepting(i, user, _, at) => i.id == id && MarkAccepted(w.invitations, id, user, at).1.Ok?
       case _ => false
  }

  lemma SuccessSettles(w: World, e: Event, id: int)
    requires InvitationsOk(w) && Succeeds(w, e, id)
    ensures Settles(w, e, id)
  {
    assert InvitationLocalOk(w.invitations, w.agents[e.agent]);
  }

  lemma {:induction false} NoSuccessAfter(w: World, events: seq<Event>, id: int)
    requires InvitationsOk(w) && id in w.invitations.byId && w.invitations.byId[id].status != Open
    ensures CountSuccesses(w, events, id) == 0
    decreases |events|
  {
    if events != [] {
      StepInvitations(w, events[0]);
      if Succeeds(w, events[0], id) { SuccessSettles(w, events[0], id); }
      NoSuccessAfter(Step(w, events[0]), events[1..], id);
    }
  }

  lemma {:induction false} CountAtMostOne(w: World, events: seq<Event>, id: int)
    requires InvitationsOk(w)
    ensures CountSuccesses(w, events, id) <= 1
    decreases |events|
  {
    if events != [] {
      StepInvitations(w, events[0]);
      if Succeeds(w, events[0], id) {
        SuccessSettles(w, events[0], id);
        NoSuccessAfter(Step(w, events[0]), events[1..], id);
      } else {
        CountAtMostOne(Step(w, events[0]), events[1..], id);
      }
    }
  }

  /** Of all the accepts and cancels of an invitation at most one succeeds, in any interleaving. */
  lemma AcceptAndCancelExclude(w: World, events: seq<Event>, id: int)
    requires Initial(w)
    ensures CountSuccesses(w, events, id) <= 1
  {
    CountAtMostOne(w, events, id);
  }

  /** The time that is checked is the time the call began: with a slow write an invitation is accepted
      after it expired. */
  lemma AcceptedAfterExpiry(tenant: string, user: string)
    ensures var w := World(Members(map[], map[], {}), Invitations(map[], map[]), 0, [Idle, Idle]);
            var events := [Begin(0, InviteMember(tenant, 1, 2, 3)), Begin(1, AcceptInvitation(2, user, 4)),
                           Tick(INVITATION_TTL), Proceed(1)];
            var end := Exec(w, events);
            && Initial(w) && 1 in end.invitations.byId
            && end.invitations.byId[1].status == Accepted && end.invitations.byId[1].expiresAt <= end.now
  {
    var w := World(Members(map[], map[], {}), Invitations(map[], map[]), 0, [Idle, Idle]);
    var i := Invitation(tenant, 1, 2, 3, Open, INVITATION_TTL, None, None, 1);
    var events := [Begin(0, InviteMember(tenant, 1, 2, 3)), Begin(1, AcceptInvitation(2, user, 4)),
                   Tick(INVITATION_TTL), Proceed(1)];
    var w1 := w.(invitations := Invitations(map[1 := i], map[2 := 1]), agents := [Done(true), Idle]);
    var w2 := w1.(agents := [Done(true), Accepting(i, user, 4, 0)]);
    var w3 := w2.(now := INVITATION_TTL);
    assert Step(w, events[0]) == w1;
    assert GetByToken(w1.invitations, 2) == Some(i);
    assert Step(w1, events[1]) == w2 && Step(w2, events[2]) == w3;
    assert Exec(w, events) == Exec(w1, events[1..]);
    assert Exec(w1, events[1..]) == Exec(w2, events[2..]);
    assert Exec(w2, events[2..]) == Exec(w3, events[3..]);
    assert Exec(w3, events[3..]) == Exec(Step(w3, events[3]), events[4..]);
  }

  // ----- when an acceptance is written

  function Elapsed(events: seq<Event>): nat {
    if events == [] then 0 else (if events[0].Tick? then events[0].elapsed else 0) + Elapsed(events[1..])
  }

  lemma {:induction false} ClockIsElapsed(w: World, events: seq<Event>)
    ensures Exec(w, events).now == w.now + Elapsed(events)
    decreases |events|
  {
    if events != [] {
      assert Step(w, events[0]).now == w.now + if events[0].Tick? then events[0].elapsed else 0;
      ClockIsElapsed(Step(w, events[0]), events[1..]);
    }
  }

  lemma {:induction false} ExpiryKept(w: World, events: seq<Event>, id: int)
    requires InvitationsOk(w) && id in w.invitations.byId
    ensures id in Exec(w, events).invitations.byId
    ensures Exec(w, events).invitations.byId[id].expiresAt == w.invitations.byId[id].expiresAt
    decreases |events|
  {
    if events != [] {
      StepInvitations(w, events[0]);
      ExpiryKept(Step(w, events[0]), events[1..], id);
    }
  }

  /** Over all interleavings: an accept call checks the invitation, the others take their steps, and its
      write succeeds. The recorded time is that of the check, before the expiry; the write itself comes
      before the expiry exactly when less time passed in between than was left at the check. */
  lemma AcceptanceInTimeIff(start: World, before: seq<Event>, me: nat, token: int, user: string, memberId: int, between: seq<Event>)
    requires Initial(start) && Others(between, me)
    requires var w := Exec(start, before);
             var checked := Step(w, Begin(me, AcceptInvitation(token, user, memberId)));
             && me < |w.agents| && w.agents[me].Idle? && checked.agents[me].Accepting?
             && Succeeds(Exec(checked, between), Proceed(me), checked.agents[me].invitation.id)
    ensures var w := Exec(start, before);
            var checked := Step(w, Begin(me, AcceptInvitation(token, user, memberId)));
            var id := checked.agents[me].invitation.id;
            var end := Step(Exec(checked, between), Proceed(me));
            && id in end.invitations.byId
            && var accepted := end.invitations.byId[id];
               && accepted.status == Accepted && accepted.acceptedAt == Some(w.now) && w.now < accepted.expiresAt
               && (end.now < accepted.expiresAt <==> Elapsed(between) < accepted.expiresAt - w.now)
  {
    var w := Exec(start, before);
    var checked := Step(w, Begin(me, AcceptInvitation(token, user, memberId)));
    ExecInvitations(start, before);
    StepInvitations(w, Begin(me, AcceptInvitation(token, user, memberId)));
    CheckedInvitation(w, me, token, user, memberId);
    OthersLeaveMe(checked, between, me);
    ExpiryKept(checked, between, checked.agents[me].invitation.id);
    ClockIsElapsed(checked, between);
    AcceptWrites(Exec(checked, between), me, checked.agents[me]);
  }

  lemma CheckedInvitation(w: World, me: nat, token: int, user: string, memberId: int)
    requires InvitationsOk(w) && me < |w.agents| && w.agents[me].Idle?
    requires Step(w, Begin(me, AcceptInvitation(token, user, memberId))).agents[me].Accepting?
    ensures var checked := Step(w, Begin(me, AcceptInvitation(token, user, memberId)));
            var i := checked.agents[me].invitation;
            && checked.now == w.now == checked.agents[me].at < i.expiresAt && checked.agents[me].user == user
            && i.id in checked.invitations.byId && checked.invitations.byId[i.id] == i
  {
    var found := GetByToken(w.invitations, token).value;
    assert InvitationOk(w.invitations.byId[w.invitations.byToken[token]], w.invitations.byToken[token]);
  }

  lemma AcceptWrites(w: World, me: nat, local: Local)
    requires me < |w.agents| && w.agents[me] == local && local.Accepting? && Succeeds(w, Proceed(me), local.invitation.id)
    ensures var end := Step(w, Proceed(me));
            var id := local.invitation.id;
            && end.now == w.now && id in end.invitations.byId && id in w.invitations.byId
            && end.invitations.byId[id].status == Accepted
            && end.invitations.byId[id].acceptedAt == Some(local.at)
            && end.invitations.byId[id].expiresAt == w.invitations.byId[id].expiresAt
  {
  }

  /** Whether the write succeeds does not depend on the clock, so any amount of time can pass. */
  lemma SuccessIgnoresClock(w: World, e: Event, id: int, now: int)
    ensures Succeeds(w.(now := now), e, id) <==> Succeeds(w, e, id)
  {
  }
}
