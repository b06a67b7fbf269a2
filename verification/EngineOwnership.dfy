/** Write-once ownership of a resource: read, write on condition that nothing is stored, read again. */
module EngineOwnership {
  import Runs
  import opened JobModels

  /** The stored item; a field that is absent or empty is None. */
  datatype Item = Item(ownerTenantId: Option<int>, tenantId: Option<int>)

  type Cell = Option<Item>

  function ReadOwnerTenantId(cell: Cell): Option<int> {
    if cell.None? then None
    else if cell.value.ownerTenantId.Some? then cell.value.ownerTenantId
    else cell.value.tenantId
  }

  /** A read sees what is stored, misses it (reads are eventually consistent), or fails. */
  datatype Read = Sees | Misses | Breaks

  /** A write is applied if nothing is stored and reported so; lost; or applied and reported as an error. */
  datatype Put = Delivered | Lost | Unreported

  datatype Outcome = Returned | OwnershipConflict | OtherError

  // ----- all interleavings of any number of callers

  datatype Caller =
    | Starting
    | Writing
    | Rereading
    | Finished(outcome: Outcome)

  datatype Agent = Agent(tenant: int, at: Caller)

  datatype System = System(cell: Cell, agents: seq<Agent>)

  datatype Event =
    | GetItem(agent: nat, read: Read)
    | PutItem(agent: nat, put: Put)
    | GetAgain(agent: nat, read: Read)

  function Seen(cell: Cell, read: Read): Cell { if read == Sees then cell else None }

  function AfterGet(tenant: int, cell: Cell, read: Read): Caller {
    if read == Breaks then Finished(OtherError)
    else
      var owner := ReadOwnerTenantId(Seen(cell, read));
      if owner.Some? && owner.value != tenant then Finished(OwnershipConflict)
      else if owner == Some(tenant) then Finished(Returned)
      else Writing
  }

  function AfterPut(tenant: int, cell: Cell, put: Put): (Cell, Caller) {
    if put == Lost || cell.Some? then (cell, Rereading)
    else (Some(Item(Some(tenant), None)), if put == Delivered then Finished(Returned) else Rereading)
  }

  function AfterReread(tenant: int, cell: Cell, read: Read): Caller {
    if read == Breaks then Finished(OtherError)
    else
      var owner := ReadOwnerTenantId(Seen(cell, read));
      if owner == Some(tenant) then Finished(Returned)
      else if owner.Some? then Finished(OwnershipConflict)
      else Finished(OtherError)
  }

  /** One step of one caller; an event that does not fit the caller's place does nothing. */
  function Step(s: System, e: Event): System {
    if e.agent >= |s.agents| then s
    else
      var a := s.agents[e.agent];
      match e
      case GetItem(i, read) =>
        if a.at == Starting then s.(agents := s.agents[i := a.(at := AfterGet(a.tenant, s.cell, read))]) else s
      case PutItem(i, put) =>
        if a.at != Writing then s
        else
          var next := AfterPut(a.tenant, s.cell, put);
          System(next.0, s.agents[i := a.(at := next.1)])
      case GetAgain(i, read) =>
        if a.at == Rereading then s.(agents := s.agents[i := a.(at := AfterReread(a.tenant, s.cell, read))]) else s
  }

  function Exec(s: System, events: seq<Event>): System
    decreases |events|
  {
    if events == [] then s else Exec(Step(s, events[0]), events[1..])
  }

  predicate Initial(s: System) { forall i :: 0 <= i < |s.agents| ==> s.agents[i].at == Starting }

  /** What a finished caller was told is what is stored. */
  predicate Honest(s: System) {
    forall i :: 0 <= i < |s.agents| ==> HonestTo(s.cell, s.agents[i])
  }

  predicate HonestTo(cell: Cell, a: Agent) {
    && (a.at == Finished(Returned) ==> ReadOwnerTenantId(cell) == Some(a.tenant))
    && (a.at == Finished(OwnershipConflict) ==>
          ReadOwnerTenantId(cell).Some? && ReadOwnerTenantId(cell) != Some(a.tenant))
  }

  /** The stored item belongs to the tenant: it names it as its owner, or, without an owner, as its tenant. */
  predicate OwnedBy(cell: Cell, tenant: int) {
    match cell
    case None => false
    case Some(Item(Some(owner), _)) => owner == tenant
    case Some(Item(None, Some(fallback))) => fallback == tenant
    case Some(Item(None, None)) => false
  }

  /** What a caller concludes from a read that sees the table: it returns if the item is its own, reports a conflict
      if it is another's, and otherwise goes on to write, or fails when it has written before. */
  lemma ReadDecides(tenant: int, cell: Cell)
    ensures var first, second := AfterGet(tenant, cell, Sees), AfterReread(tenant, cell, Sees);
            && (first == Finished(Returned) <==> OwnedBy(cell, tenant))
            && (first == Finished(OwnershipConflict) <==> exists other :: other != tenant && OwnedBy(cell, other))
            && (first == Writing <==> forall owner :: !OwnedBy(cell, owner))
            && (second == Finished(Returned) <==> OwnedBy(cell, tenant))
            && (second == Finished(OwnershipConflict) <==> exists other :: other != tenant && OwnedBy(cell, other))
            && (second == Finished(OtherError) <==> forall owner :: !OwnedBy(cell, owner))
  {
    var owner := ReadOwnerTenantId(cell);
    assert owner.Some? ==> OwnedBy(cell, owner.value);
    assert forall t :: OwnedBy(cell, t) ==> owner == Some(t);
  }

  lemma StepHonest(s: System, e: Event)
    requires Honest(s)
    ensures Honest(Step(s, e))
    ensures s.cell.Some? ==> Step(s, e).cell == s.cell
  {
    forall i | 0 <= i < |s.agents| ensures HonestTo(Step(s, e).cell, Step(s, e).agents[i]) {
      assert HonestTo(s.cell, s.agents[i]);
      if e.agent < |s.agents| { assert HonestTo(s.cell, s.agents[e.agent]); }
    }
  }

  lemma {:induction false} ExecHonest(s: System, events: seq<Event>)
    requires Honest(s)
    ensures Honest(Exec(s, events))
    ensures s.cell.Some? ==> Exec(s, events).cell == s.cell
    decreases |events|
  {
    if events != [] {
      StepHonest(s, events[0]);
      ExecHonest(Step(s, events[0]), events[1..]);
    }
  }

  lemma ExecJoin(s: System, first: seq<Event>, second: seq<Event>)
    ensures Exec(s, first + second) == Exec(Exec(s, first), second)
  {
    Runs.RunJoin(Step, Exec, s, first, second);
  }

  /** Whatever the interleaving: once an item is stored it never changes, so neither does its owner. */
  lemma OwnerNeverChanges(s: System, first: seq<Event>, second: seq<Event>)
    requires Initial(s) && Exec(s, first).cell.Some?
    ensures Exec(s, first + second).cell == Exec(s, first).cell
  {
    ExecHonest(s, first);
    ExecJoin(s, first, second);
    ExecHonest(Exec(s, first), second);
  }

  /** A normal return means that the caller's tenant is the stored owner, now and ever after; a conflict
      means that another tenant is. */
  lemma ReturnMeansOwned(s: System, first: seq<Event>, second: seq<Event>, i: nat)
    requires Initial(s) && i < |Exec(s, first).agents|
    ensures Exec(s, first).agents[i].at == Finished(Returned) ==>
              ReadOwnerTenantId(Exec(s, first + second).cell) == Some(Exec(s, first).agents[i].tenant)
    ensures Exec(s, first).agents[i].at == Finished(OwnershipConflict) ==>
              var owner := ReadOwnerTenantId(Exec(s, first + second).cell);
              owner.Some? && owner.value != Exec(s, first).agents[i].tenant
  {
    ExecHonest(s, first);
    assert HonestTo(Exec(s, first).cell, Exec(s, first).agents[i]);
    ExecJoin(s, first, second);
    ExecHonest(Exec(s, first), second);
  }

  /** So callers of two tenants never both return. */
  lemma OneOwner(s: System, events: seq<Event>, i: nat, j: nat)
    requires Initial(s) && i < |Exec(s, events).agents| && j < |Exec(s, events).agents|
    requires Exec(s, events).agents[i].at == Finished(Returned) == Exec(s, events).agents[j].at
    ensures Exec(s, events).agents[i].tenant == Exec(s, events).agents[j].tenant
  {
    ExecHonest(s, events);
    assert HonestTo(Exec(s, events).cell, Exec(s, events).agents[i]);
    assert HonestTo(Exec(s, events).cell, Exec(s, events).agents[j]);
  }

  // ----- one call, with the other callers as interference

  /** What the steps of others can do to the cell while one caller waits. */
  function Interfered(cell: Cell, filled: Cell): Cell {
    if cell.None? then filled else cell
  }

  /** All that any steps of any callers do to the cell is fill it. */
  lemma {:induction false} OthersOnlyFill(s: System, events: seq<Event>)
    ensures exists filled :: Exec(s, events).cell == Interfered(s.cell, filled)
    decreases |events|
  {
    if events != [] { OthersOnlyFill(Step(s, events[0]), events[1..]); }
    assert Exec(s, events).cell == Interfered(s.cell, Exec(s, events).cell);
  }

  /** And another caller can fill it with an item that its tenant owns. */
  lemma OthersCanFill(agents: seq<Agent>, i: nat)
    requires i < |agents| && agents[i].at == Starting
    ensures var owned := Some(Item(Some(agents[i].tenant), None));
            exists events :: Exec(System(None, agents), events).cell == Interfered(None, owned)
  {
    var s := System(None, agents);
    var read, put := GetItem(i, Sees), PutItem(i, Delivered);
    assert [read, put][1..] == [put] && [put][1..] == [];
    assert Exec(s, [read, put]) == Step(Step(s, read), put);
  }

  /** The answer to a call that meets no fault and no other caller. */
  function Alone(cell: Cell, tenant: int): (Cell, Outcome) {
    var owner := ReadOwnerTenantId(cell);
    if cell.None? then (Some(Item(Some(tenant), None)), Returned)
    else (cell, if owner == Some(tenant) then Returned else if owner.Some? then OwnershipConflict else OtherError)
  }

  class OwnershipTable {
    var cell: Cell

    constructor ()
      ensures cell == None
    {
      cell := None;
    }

    method Await(filled: Cell)
      modifies this
      ensures cell == Interfered(old(cell), filled)
    {
      if cell.None? { cell := filled; }
    }

    /** Another caller may fill the cell before the write and before the second read. */
    method EnsureEngineOwnership(tenant: int, read: Read, filled: Cell, put: Put, filledLater: Cell, again: Read)
      returns (outcome: Outcome)
      modifies this
      ensures old(cell).Some? ==> cell == old(cell)
      ensures outcome == Returned ==> ReadOwnerTenantId(cell) == Some(tenant)
      ensures outcome == OwnershipConflict ==> ReadOwnerTenantId(cell).Some? && ReadOwnerTenantId(cell) != Some(tenant)
      ensures outcome == OtherError ==>
                read == Breaks || again == Breaks || again == Misses || ReadOwnerTenantId(cell).None?
      ensures read == Sees == again && put == Delivered && filled.None? ==> (cell, outcome) == Alone(old(cell), tenant)
      ensures read == Sees == again && put == Delivered ==>
                && (outcome == Returned <==> OwnedBy(cell, tenant))
                && (outcome == OwnershipConflict <==> exists other :: other != tenant && OwnedBy(cell, other))
                && (outcome == OtherError <==> forall owner :: !OwnedBy(cell, owner))
                && (old(cell).None? && filled.None? ==> cell == Some(Item(Some(tenant), None)))
    {
      forall c: Cell
        ensures ReadOwnerTenantId(c).Some? ==> OwnedBy(c, ReadOwnerTenantId(c).value)
        ensures forall t :: OwnedBy(c, t) ==> ReadOwnerTenantId(c) == Some(t)
      {
      }
      if read == Breaks { return OtherError; }
      var existingOwner := ReadOwnerTenantId(Seen(cell, read));
      if existingOwner.Some? && existingOwner.value != tenant { return OwnershipConflict; }
      if existingOwner == Some(tenant) { return Returned; }
      Await(filled);
      if put != Lost && cell.None? {
        cell := Some(Item(Some(tenant), None));
        if put == Delivered { return Returned; }
      }
      Await(filledLater);
      if again == Breaks { return OtherError; }
      var racedOwner := ReadOwnerTenantId(Seen(cell, again));
      if racedOwner == Some(tenant) { return Returned; }
      if racedOwner.Some? { return OwnershipConflict; }
      return OtherError;
    }
  }
}
