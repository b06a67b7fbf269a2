/** The in-memory membership and invitation repositories: two maps each, with versioned updates. */
module MembershipStore {
  import opened JobModels

  datatype MemberStatus = Pending | Active | Suspended | Removed

  datatype Membership = Membership(
    tenant: string,
    user: string,
    memberId: int,
    role: int,
    status: MemberStatus,
    invitation: Option<int>,
    version: nat)

  /** The fields that an update may carry. */
  datatype Changes = Changes(role: Option<int>, status: Option<MemberStatus>, invitation: Option<int>)

  datatype InvitationStatus = Open | Accepted | Cancelled | Expired

  datatype Invitation = Invitation(
    tenant: string,
    id: int,
    token: int,
    role: int,
    status: InvitationStatus,
    expiresAt: int,
    acceptedAt: Option<int>,
    acceptedBy: Option<string>,
    version: nat)

  datatype Reply<+T> = Ok(value: T) | AlreadyExists | VersionConflict | BootstrapConflict | NotFound | NotAcceptable

  // ----- keys

  function Key(tenant: string, user: string): string { tenant + "::" + user }

  /** `longer` is `shorter` and something that could be read as the beginning of a separator. */
  predicate Continues(shorter: string, longer: string) {
    && |shorter| < |longer|
    && longer[..|shorter|] == shorter
    && longer[|shorter|] == ':'
    && (|longer| > |shorter| + 1 ==> longer[|shorter| + 1] == ':')
  }

  lemma KeyInjectiveInUser(tenant: string, user: string, user': string)
    requires Key(tenant, user) == Key(tenant, user')
    ensures user == user'
  {
    assert Key(tenant, user)[|tenant| + 2..] == user;
    assert Key(tenant, user')[|tenant| + 2..] == user';
  }

  lemma SameLengthTenants(a: string, b: string, user: string, user': string)
    requires |a| == |b| && Key(a, user) == Key(b, user')
    ensures a == b
  {
    assert Key(a, user)[..|a|] == a && Key(b, user')[..|b|] == b;
  }

  lemma CollisionContinues(shorter: string, longer: string, user: string, user': string)
    requires |shorter| < |longer| && Key(shorter, user) == Key(longer, user')
    ensures Continues(shorter, longer)
  {
    var k := Key(shorter, user);
    assert k[..|shorter|] == shorter && Key(longer, user')[..|shorter|] == longer[..|shorter|];
    assert k[|shorter|] == ':' && k[|shorter| + 1] == ':';
    assert Key(longer, user')[|shorter|] == longer[|shorter|];
  }

  lemma ContinuesCollides(shorter: string, longer: string)
    requires Continues(shorter, longer)
    ensures exists user, user' :: Key(shorter, user) == Key(longer, user')
  {
    var n := |shorter|;
    if |longer| == n + 1 {
      assert longer == shorter + ":";
      assert Key(shorter, ":") == Key(longer, "");
    } else {
      var rest := longer[n + 2..];
      assert longer == shorter + "::" + rest;
      assert Key(shorter, rest + "::") == Key(longer, "");
    }
  }

  /** Two tenants can be confused by the key exactly when one name continues the other with `:` or `::`. */
  lemma TenantsCollideIff(a: string, b: string)
    requires a != b
    ensures (exists user, user' :: Key(a, user) == Key(b, user')) <==> Continues(a, b) || Continues(b, a)
  {
    if user, user' :| Key(a, user) == Key(b, user') {
      if |a| < |b| {
        CollisionContinues(a, b, user, user');
      } else if |b| < |a| {
        CollisionContinues(b, a, user', user);
      } else {
        SameLengthTenants(a, b, user, user');
      }
    }
    if Continues(a, b) { ContinuesCollides(a, b); }
    if Continues(b, a) {
      ContinuesCollides(b, a);
      var user, user' :| Key(b, user) == Key(a, user');
      assert Key(a, user') == Key(b, user);
    }
  }

  // ----- the membership repository

  datatype Members = Members(byKey: map<string, Membership>, byMemberId: map<int, string>, bootstrapped: set<string>)

  function Put(s: Members, m: Membership): Members {
    var key := Key(m.tenant, m.user);
    s.(byKey := s.byKey[key := m], byMemberId := s.byMemberId[m.memberId := key])
  }

  function Create(s: Members, m: Membership): (Members, Reply<Membership>) {
    if Key(m.tenant, m.user) in s.byKey then (s, AlreadyExists)
    else (Put(s, m.(version := 1)), Ok(m.(version := 1)))
  }

  predicate HasAny(s: Members, tenant: string) { exists key :: key in s.byKey && s.byKey[key].tenant == tenant }

  const OWNER_ROLE := 0

  function BootstrapFirstOwner(s: Members, tenant: string, user: string, memberId: int): (Members, Reply<Membership>) {
    if HasAny(s, tenant) || tenant in s.bootstrapped || Key(tenant, user) in s.byKey then (s, BootstrapConflict)
    else
      var m := Membership(tenant, user, memberId, OWNER_ROLE, Active, None, 1);
      (Put(s, m).(bootstrapped := s.bootstrapped + {tenant}), Ok(m))
  }

  function GetByMemberId(s: Members, memberId: int): Option<Membership> {
    if memberId in s.byMemberId && s.byMemberId[memberId] in s.byKey then Some(s.byKey[s.byMemberId[memberId]]) else None
  }

  function Get(s: Members, tenant: string, user: string): Option<Membership> {
    if Key(tenant, user) in s.byKey then Some(s.byKey[Key(tenant, user)]) else None
  }

  function Change(m: Membership, c: Changes): Membership {
    m.(role := if c.role.Some? then c.role.value else m.role,
       status := if c.status.Some? then c.status.value else m.status,
       invitation := if c.invitation.Some? then c.invitation else m.invitation,
       version := m.version + 1)
  }

  function Update(s: Members, tenant: string, user: string, c: Changes, expectedVersion: nat): (Members, Reply<Membership>) {
    var key := Key(tenant, user);
    if key !in s.byKey || s.byKey[key].version != expectedVersion then (s, VersionConflict)
    else (s.(byKey := s.byKey[key := Change(s.byKey[key], c)]), Ok(Change(s.byKey[key], c)))
  }

  function Delete(s: Members, tenant: string, user: string, expectedVersion: Option<nat>): (Members, Reply<()>) {
    var key := Key(tenant, user);
    if key !in s.byKey || (expectedVersion.Some? && s.byKey[key].version != expectedVersion.value) then (s, VersionConflict)
    else (s.(byKey := s.byKey - {key}, byMemberId := s.byMemberId - {s.byKey[key].memberId}), Ok(()))
  }

  /** The two maps are inverse to one another. */
  predicate Inverse(s: Members) {
    && (forall key :: key in s.byKey ==>
          s.byKey[key].memberId in s.byMemberId && s.byMemberId[s.byKey[key].memberId] == key)
    && (forall id :: id in s.byMemberId ==>
          s.byMemberId[id] in s.byKey && s.byKey[s.byMemberId[id]].memberId == id)
  }

  /** A new record keeps the maps inverse exactly when its member id is fresh. */
  lemma PutInverseIff(s: Members, m: Membership)
    requires Inverse(s) && Key(m.tenant, m.user) !in s.byKey
    ensures Inverse(Put(s, m)) <==> m.memberId !in s.byMemberId
  {
    var key, s' := Key(m.tenant, m.user), Put(s, m);
    if m.memberId in s.byMemberId {
      var old_key := s.byMemberId[m.memberId];
      assert old_key in s'.byKey && s'.byKey[old_key].memberId == m.memberId && s'.byMemberId[m.memberId] == key != old_key;
    }
  }

  /** A deletion takes the record and its member id away, if the record is there and, where a version is given, has
      it; that the tenant had a first owner is kept. */
  lemma DeleteByFields(s: Members, tenant: string, user: string, expectedVersion: Option<nat>, m: Membership)
    requires Inverse(s) && (Key(tenant, user) in s.byKey ==> s.byKey[Key(tenant, user)] == m)
    ensures var (after, reply) := Delete(s, tenant, user, expectedVersion);
            var key := Key(tenant, user);
            var ok := key in s.byKey && (expectedVersion.None? || expectedVersion.value == m.version);
            && (reply == Ok(()) <==> ok) && (!ok ==> reply == VersionConflict && after == s)
            && after.bootstrapped == s.bootstrapped
            && (ok ==> forall k :: k in after.byKey <==> k in s.byKey && k != key)
            && (ok ==> forall id :: id in after.byMemberId <==> id in s.byMemberId && id != m.memberId)
            && (forall k :: k in after.byKey ==> after.byKey[k] == s.byKey[k])
  {
  }

  datatype Operation =
    | CreateOp(member: Membership)
    | BootstrapOp(tenant: string, user: string, memberId: int)
    | UpdateOp(tenant: string, user: string, changes: Changes, expectedVersion: nat)
    | DeleteOp(tenant: string, user: string, onlyVersion: Option<nat>)

  function Apply(s: Members, op: Operation): Members {
    match op
    case CreateOp(m) => Create(s, m).0
    case BootstrapOp(tenant, user, id) => BootstrapFirstOwner(s, tenant, user, id).0
    case UpdateOp(tenant, user, c, v) => Update(s, tenant, user, c, v).0
    case DeleteOp(tenant, user, v) => Delete(s, tenant, user, v).0
  }

  predicate Bootstraps(s: Members, op: Operation, tenant: string) {
    op.BootstrapOp? && op.tenant == tenant && BootstrapFirstOwner(s, tenant, op.user, op.memberId).1.Ok?
  }

  /** Ids are generated: an id is new when a record is made with it. */
  predicate FreshId(s: Members, op: Operation) {
    && (op.CreateOp? ==> op.member.memberId !in s.byMemberId)
    && (op.BootstrapOp? ==> op.memberId !in s.byMemberId)
  }

  function RunAll(s: Members, ops: seq<Operation>): Members
    decreases |ops|
  {
    if ops == [] then s else RunAll(Apply(s, ops[0]), ops[1..])
  }

  predicate FreshIds(s: Members, ops: seq<Operation>)
    decreases |ops|
  {
    ops != [] ==> FreshId(s, ops[0]) && FreshIds(Apply(s, ops[0]), ops[1..])
  }

  function CountBootstraps(s: Members, ops: seq<Operation>, tenant: string): nat
    decreases |ops|
  {
    if ops == [] then 0
    else (if Bootstraps(s, ops[0], tenant) then 1 else 0) + CountBootstraps(Apply(s, ops[0]), ops[1..], tenant)
  }

  lemma ApplyKeepsInverse(s: Members, op: Operation)
    requires Inverse(s) && FreshId(s, op)
    ensures Inverse(Apply(s, op))
  {
    match op
    case CreateOp(m) => if Key(m.tenant, m.user) !in s.byKey { PutInverseIff(s, m.(version := 1)); }
    case BootstrapOp(tenant, user, id) =>
      if Key(tenant, user) !in s.byKey { PutInverseIff(s, Membership(tenant, user, id, OWNER_ROLE, Active, None, 1)); }
    case UpdateOp(_, _, _, _) =>
    case DeleteOp(_, _, _) =>
  }

  /** Over every run of store operations with generated ids the maps stay inverse. */
  lemma {:induction false} StoreStaysInverse(s: Members, ops: seq<Operation>)
    requires Inverse(s) && FreshIds(s, ops)
    ensures Inverse(RunAll(s, ops))
    decreases |ops|
  {
    if ops != [] {
      ApplyKeepsInverse(s, ops[0]);
      StoreStaysInverse(Apply(s, ops[0]), ops[1..]);
    }
  }

  lemma {:induction false} NoneAfterBootstrap(s: Members, ops: seq<Operation>, tenant: string)
    requires tenant in s.bootstrapped
    ensures CountBootstraps(s, ops, tenant) == 0
    decreases |ops|
  {
    if ops != [] { NoneAfterBootstrap(Apply(s, ops[0]), ops[1..], tenant); }
  }

  /** At most one owner bootstrap of a tenant succeeds, whatever is deleted in between. */
  lemma {:induction false} OneBootstrap(s: Members, ops: seq<Operation>, tenant: string)
    ensures CountBootstraps(s, ops, tenant) <= 1
    decreases |ops|
  {
    if ops != [] {
      if Bootstraps(s, ops[0], tenant) {
        NoneAfterBootstrap(Apply(s, ops[0]), ops[1..], tenant);
      } else {
        OneBootstrap(Apply(s, ops[0]), ops[1..], tenant);
      }
    }
  }

  class InMemoryMembershipRepository {
    var byKey: map<string, Membership>
    var byMemberId: map<int, string>
    var bootstrapCompleted: set<string>

    constructor ()
      ensures Contents() == Members(map[], map[], {})
    {
      byKey, byMemberId, bootstrapCompleted := map[], map[], {};
    }

    ghost function Contents(): Members
      reads this
    {
      Members(byKey, byMemberId, bootstrapCompleted)
    }

    method CreateMember(input: Membership) returns (reply: Reply<Membership>)
      modifies this
      ensures (Contents(), reply) == Create(old(Contents()), input)
    {
      var key := Key(input.tenant, input.user);
      if key in byKey { return AlreadyExists; }
      var record := input.(version := 1);
      byKey := byKey[key := record];
      byMemberId := byMemberId[record.memberId := key];
      reply := Ok(record);
    }

    method TenantHasAnyMembershipRecords(tenant: string) returns (found: bool)
      ensures found <==> HasAny(Contents(), tenant)
    {
      var keys := byKey.Keys;
      while keys != {}
        invariant keys <= byKey.Keys
        invariant forall key :: key in byKey && key !in keys ==> byKey[key].tenant != tenant
        decreases |keys|
      {
        var key :| key in keys;
        if byKey[key].tenant == tenant { return true; }
        keys := keys - {key};
      }
      found := false;
    }

    method Bootstrap(tenant: string, user: string, memberId: int) returns (reply: Reply<Membership>)
      modifies this
      ensures (Contents(), reply) == BootstrapFirstOwner(old(Contents()), tenant, user, memberId)
    {
      var any := TenantHasAnyMembershipRecords(tenant);
      if any { return BootstrapConflict; }
      if tenant in bootstrapCompleted { return BootstrapConflict; }
      var key := Key(tenant, user);
      if key in byKey { return BootstrapConflict; }
      var record := Membership(tenant, user, memberId, OWNER_ROLE, Active, None, 1);
      bootstrapCompleted := bootstrapCompleted + {tenant};
      byKey := byKey[key := record];
      byMemberId := byMemberId[memberId := key];
      reply := Ok(record);
    }

    method GetMemberById(memberId: int) returns (found: Option<Membership>)
      ensures found == GetByMemberId(Contents(), memberId)
    {
      if memberId !in byMemberId { return None; }
      var key := byMemberId[memberId];
      found := if key in byKey then Some(byKey[key]) else None;
    }

    method GetMember(tenant: string, user: string) returns (found: Option<Membership>)
      ensures found == Get(Contents(), tenant, user)
    {
      var key := Key(tenant, user);
      found := if key in byKey then Some(byKey[key]) else None;
    }

    method UpdateMember(tenant: string, user: string, changes: Changes, expectedVersion: nat) returns (reply: Reply<Membership>)
      modifies this`byKey
      ensures (Contents(), reply) == Update(old(Contents()), tenant, user, changes, expectedVersion)
    {
      var key := Key(tenant, user);
      if key !in byKey || byKey[key].version != expectedVersion { return VersionConflict; }
      var updated := Change(byKey[key], changes);
      byKey := byKey[key := updated];
      reply := Ok(updated);
    }

    method DeleteMember(tenant: string, user: string, expectedVersion: Option<nat>) returns (reply: Reply<()>)
      modifies this`byKey, this`byMemberId
      ensures (Contents(), reply) == Delete(old(Contents()), tenant, user, expectedVersion)
    {
      var key := Key(tenant, user);
      if key !in byKey || (expectedVersion.Some? && byKey[key].version != expectedVersion.value) { return VersionConflict; }
      var existing := byKey[key];
      byKey := byKey - {key};
      byMemberId := byMemberId - {existing.memberId};
      reply := Ok(());
    }
  }

  // ----- the invitation repository; invitations of one tenant, by id

  datatype Invitations = Invitations(byId: map<int, Invitation>, byToken: map<int, int>)

  function Invite(s: Invitations, i: Invitation): (Invitations, Reply<Invitation>) {
    if i.id in s.byId then (s, AlreadyExists)
    else (Invitations(s.byId[i.id := i.(version := 1)], s.byToken[i.token := i.id]), Ok(i.(version := 1)))
  }

  function GetByToken(s: Invitations, token: int): Option<Invitation> {
    if token in s.byToken && s.byToken[token] in s.byId then Some(s.byId[s.byToken[token]]) else None
  }

  function Cancel(s: Invitations, id: int, expectedVersion: nat): (Invitations, Reply<Invitation>) {
    if id !in s.byId || s.byId[id].version != expectedVersion then (s, VersionConflict)
    else
      var cancelled := s.byId[id].(status := Cancelled, version := s.byId[id].version + 1);
      (s.(byId := s.byId[id := cancelled]), Ok(cancelled))
  }

  /** One atomic check and write: open, and not expired at the given time. */
  function MarkAccepted(s: Invitations, id: int, user: string, now: int): (Invitations, Reply<Invitation>) {
    if id !in s.byId then (s, NotFound)
    else
      var existing := s.byId[id];
      if existing.status != Open || existing.expiresAt <= now then (s, NotAcceptable)
      else
        var accepted := existing.(status := Accepted, acceptedAt := Some(now), acceptedBy := Some(user),
                                  version := existing.version + 1);
        (s.(byId := s.byId[id := accepted]), Ok(accepted))
  }

  /** Every invitation is stored under its own id. */
  predicate IdsMatch(s: Invitations) { forall id :: id in s.byId ==> s.byId[id].id == id }

  class InMemoryInvitationRepository {
    var byId: map<int, Invitation>
    var byTokenHash: map<int, int>

    constructor ()
      ensures Contents() == Invitations(map[], map[])
    {
      byId, byTokenHash := map[], map[];
    }

    ghost function Contents(): Invitations
      reads this
    {
      Invitations(byId, byTokenHash)
    }

    method CreateInvitation(input: Invitation) returns (reply: Reply<Invitation>)
      modifies this
      ensures (Contents(), reply) == Invite(old(Contents()), input)
    {
      if input.id in byId { return AlreadyExists; }
      var record := input.(version := 1);
      byId := byId[input.id := record];
      byTokenHash := byTokenHash[record.token := input.id];
      reply := Ok(record);
    }

    method GetInvitation(id: int) returns (found: Option<Invitation>)
      ensures found == if id in Contents().byId then Some(Contents().byId[id]) else None
    {
      found := if id in byId then Some(byId[id]) else None;
    }

    method GetInvitationByToken(token: int) returns (found: Option<Invitation>)
      ensures found == GetByToken(Contents(), token)
    {
      found := if token in byTokenHash && byTokenHash[token] in byId then Some(byId[byTokenHash[token]]) else None;
    }

    method CancelInvitation(id: int, expectedVersion: nat) returns (reply: Reply<Invitation>)
      modifies this`byId
      ensures (Contents(), reply) == Cancel(old(Contents()), id, expectedVersion)
    {
      if id !in byId || byId[id].version != expectedVersion { return VersionConflict; }
      var updated := byId[id].(status := Cancelled, version := byId[id].version + 1);
      byId := byId[id := updated];
      reply := Ok(updated);
    }

    method AcceptInvitation(id: int, user: string, now: int) returns (reply: Reply<Invitation>)
      modifies this`byId
      ensures (Contents(), reply) == MarkAccepted(old(Contents()), id, user, now)
    {
      if id !in byId { return NotFound; }
      var existing := byId[id];
      if existing.status != Open || existing.expiresAt <= now { return NotAcceptable; }
      var updated := existing.(status := Accepted, acceptedAt := Some(now), acceptedBy := Some(user),
                               version := existing.version + 1);
      byId := byId[id := updated];
      reply := Ok(updated);
    }
  }
}
