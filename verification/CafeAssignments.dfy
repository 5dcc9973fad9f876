/**
 src/modules/admin-cafes/admin-cafes.service.ts: publishing a cafe, its point-of-sale agents, its active event, and the
 staff assignments that follow them. Every service method is one step on the stored tables; new ids come from a counter
 above every id in use. The menu, and scope checks on the caller, are not part of this model.
 */
module CafeAssignments {
  import opened Prelude

  type Id = nat

  datatype Status = Draft | Review | Published | Archived

  datatype Cafe =
    Cafe(org: Id, named: bool, tables: int, manager: Option<Id>, status: Status, activeEvent: Option<Id>)

  datatype Assignment = Assignment(cafe: Id, event: Id, isOpen: bool)

  datatype Agent = Agent(cafe: Id, user: Id, active: bool)

  datatype Role = CafePos | Pos | OtherRole

  datatype Staff = Staff(user: Id, role: Role, event: Option<Id>, isCafeAgent: bool, active: bool)

  // Which of the two roles are seeded.
  datatype Roles = Roles(cafePos: bool, pos: bool)

  datatype Candidate = Existing(user: Id) | NewUser(complete: bool, taken: bool)

  datatype Blocker = NameRequired | TableCountRequired | ActiveEventRequired | MenuItemRequired | PosAgentRequired

  datatype Tables = Tables(cafes: map<Id, Cafe>, assignments: map<Id, Assignment>, agents: map<Id, Agent>,
                           staff: map<Id, Staff>, users: set<Id>)

  datatype Error =
    | OrganizationMissing | CafeMissing | UserMissing | FieldsMissing | RoleMissing | NameTaken | AlreadyAgent
    | AgentMissing | EventMissing
    | OtherOrganization | NotReady(blockers: seq<Blocker>)

  // ----- invariants of the tables

  predicate OpenFor(assignments: map<Id, Assignment>, id: Id, cafe: Id) {
    id in assignments && assignments[id].cafe == cafe && assignments[id].isOpen
  }

  // A cafe has an active event exactly when it has one open assignment, for that event.
  predicate ActiveIsOpen(cafes: map<Id, Cafe>, assignments: map<Id, Assignment>, cafe: Id)
    requires cafe in cafes
  {
    match cafes[cafe].activeEvent
    case None => forall id | id in assignments :: !OpenFor(assignments, id, cafe)
    case Some(e) =>
      exists id :: OpenFor(assignments, id, cafe) && id in assignments && assignments[id].event == e
                   && forall other | other in assignments && OpenFor(assignments, other, cafe) :: other == id
  }

  // The database checks that an agent's cafe and user exist and that a user is an agent of a cafe once; the service
  // keeps the rest.
  predicate Sound(t: Tables) {
    && (forall c | c in t.cafes :: ActiveIsOpen(t.cafes, t.assignments, c))
    && (forall c | c in t.cafes && t.cafes[c].status == Published :: t.cafes[c].activeEvent.Some?)
    && (forall a | a in t.agents :: t.agents[a].cafe in t.cafes && t.agents[a].user in t.users)
    && OncePerCafe(t.agents)
    && (forall id | id in t.assignments :: t.assignments[id].cafe in t.cafes)
  }

  predicate OncePerCafe(agents: map<Id, Agent>) {
    forall a, b | a in agents && b in agents && agents[a].cafe == agents[b].cafe && agents[a].user == agents[b].user ::
      a == b
  }

  predicate Below(t: Tables, nextId: Id) {
    && (forall id | id in t.cafes :: id < nextId)
    && (forall id | id in t.assignments :: id < nextId)
    && (forall id | id in t.agents :: id < nextId)
    && (forall id | id in t.staff :: id < nextId)
    && (forall id | id in t.users :: id < nextId)
  }

  // ----- who is on duty

  predicate CafeStaff(row: Staff, roles: Roles) {
    (roles.cafePos && row.role == CafePos) || (roles.pos && row.role == Pos && row.isCafeAgent)
  }

  predicate Concerns(row: Staff, roles: Roles, user: Id, event: Id) {
    row.user == user && row.event == Some(event) && CafeStaff(row, roles)
  }

  // The user has an active cafe staff assignment for the event.
  predicate OnDuty(staff: map<Id, Staff>, roles: Roles, user: Id, event: Id) {
    exists id :: id in staff && Concerns(staff[id], roles, user, event) && staff[id].active
  }

  // The user is an active agent of a cafe whose active event it is.
  predicate Working(cafes: map<Id, Cafe>, agents: map<Id, Agent>, user: Id, event: Id) {
    exists a :: a in agents && agents[a].user == user && agents[a].active
                && agents[a].cafe in cafes && cafes[agents[a].cafe].activeEvent == Some(event)
  }

  predicate OnePerEvent(staff: map<Id, Staff>, roles: Roles, user: Id) {
    forall a, b | a in staff && b in staff && staff[a].event.Some? && staff[a].event == staff[b].event
                  && Concerns(staff[a], roles, user, staff[a].event.value)
                  && Concerns(staff[b], roles, user, staff[a].event.value) :: a == b
  }

  predicate Seeded(roles: Roles) {
    roles.cafePos || roles.pos
  }

  // The user is an agent of one cafe at most.
  predicate OneCafe(agents: map<Id, Agent>, user: Id) {
    forall a, b | a in agents && b in agents && agents[a].user == user && agents[b].user == user ::
      agents[a].cafe == agents[b].cafe
  }

  // The user is on duty for exactly the events the user works on.
  ghost predicate Synced(t: Tables, roles: Roles, user: Id) {
    forall e: Id :: OnDuty(t.staff, roles, user, e) <==> Working(t.cafes, t.agents, user, e)
  }

  // With one assignment per event, being synced says of each cafe staff row that it is active exactly when its user
  // works on its event.
  lemma SyncedRows(t: Tables, roles: Roles, user: Id, id: Id)
    requires Synced(t, roles, user) && OnePerEvent(t.staff, roles, user)
    requires id in t.staff && t.staff[id].event.Some? && Concerns(t.staff[id], roles, user, t.staff[id].event.value)
    ensures t.staff[id].active <==> Working(t.cafes, t.agents, user, t.staff[id].event.value)
  {
  }

  // Rows that are not cafe staff are untouched, no row changes hands, and no user gets a second row for an event.
  ghost predicate StaffKept(before: map<Id, Staff>, after: map<Id, Staff>, roles: Roles) {
    && (forall id | id in before :: id in after && after[id] == before[id].(active := after[id].active)
          && (after[id] == before[id] || (CafeStaff(before[id], roles) && before[id].event.Some?)))
    && (forall user: Id | OnePerEvent(before, roles, user) :: OnePerEvent(after, roles, user))
  }

  // Users on duty change only as listed.
  ghost predicate Changed(before: map<Id, Staff>, after: map<Id, Staff>, roles: Roles, off: set<Id>, on: set<Id>,
                          offEvent: Option<Id>, onEvent: Option<Id>)
  {
    forall user: Id, e: Id | OnePerEvent(before, roles, user) ::
      OnDuty(after, roles, user, e) <==>
        (onEvent == Some(e) && user in on) ||
        (OnDuty(before, roles, user, e) && !(offEvent == Some(e) && user in off))
  }

  // ----- changing one user's duty

  function Suspended(staff: map<Id, Staff>, roles: Roles, user: Id, event: Id): map<Id, Staff> {
    map id | id in staff ::
      if Concerns(staff[id], roles, user, event) && staff[id].active then staff[id].(active := false) else staff[id]
  }

  lemma SuspendedDuty(staff: map<Id, Staff>, roles: Roles, user: Id, event: Id)
    ensures StaffKept(staff, Suspended(staff, roles, user, event), roles)
    ensures Changed(staff, Suspended(staff, roles, user, event), roles, {user}, {}, Some(event), None)
  {
  }

  lemma SetDuty(staff: map<Id, Staff>, roles: Roles, user: Id, event: Id, id: Id, active: bool)
    requires id in staff && Concerns(staff[id], roles, user, event)
    ensures var after := staff[id := staff[id].(active := active)];
      && StaffKept(staff, after, roles)
      && Changed(staff, after, roles, {user}, if active then {user} else {}, Some(event), Some(event))
  {
  }

  lemma NewDuty(staff: map<Id, Staff>, roles: Roles, id: Id, row: Staff)
    requires id !in staff && CafeStaff(row, roles) && row.active && row.event.Some?
    requires forall other | other in staff :: !Concerns(staff[other], roles, row.user, row.event.value)
    ensures StaffKept(staff, staff[id := row], roles)
    ensures Changed(staff, staff[id := row], roles, {row.user}, {row.user}, row.event, row.event)
  {
    var after := staff[id := row];
    forall u: Id, e: Id
      ensures OnDuty(after, roles, u, e) <==> OnDuty(staff, roles, u, e) || (u == row.user && Some(e) == row.event)
    {
      if OnDuty(staff, roles, u, e) {
        var other :| other in staff && Concerns(staff[other], roles, u, e) && staff[other].active;
        assert other in after && Concerns(after[other], roles, u, e) && after[other].active;
      }
      if u == row.user && Some(e) == row.event {
        assert id in after && Concerns(after[id], roles, u, e) && after[id].active;
      }
    }
  }

  lemma ChangedNone(staff: map<Id, Staff>, roles: Roles)
    ensures StaffKept(staff, staff, roles)
    ensures forall e: Option<Id> :: Changed(staff, staff, roles, {}, {}, e, None)
    ensures forall e: Option<Id> :: Changed(staff, staff, roles, {}, {}, None, e)
  {
  }

  lemma StaffKeptTrans(a: map<Id, Staff>, b: map<Id, Staff>, c: map<Id, Staff>, roles: Roles)
    requires StaffKept(a, b, roles) && StaffKept(b, c, roles)
    ensures StaffKept(a, c, roles)
  {
    hide OnePerEvent;
  }

  lemma MoreOff(a: map<Id, Staff>, b: map<Id, Staff>, c: map<Id, Staff>, roles: Roles, off: set<Id>, user: Id,
                event: Id)
    requires StaffKept(a, b, roles) && Changed(a, b, roles, off, {}, Some(event), None)
    requires Changed(b, c, roles, {user}, {}, Some(event), None)
    ensures Changed(a, c, roles, off + {user}, {}, Some(event), None)
  {
    hide OnePerEvent, OnDuty;
  }

  lemma MoreOn(a: map<Id, Staff>, b: map<Id, Staff>, c: map<Id, Staff>, roles: Roles, off: set<Id>, on: set<Id>,
               added: set<Id>, offEvent: Option<Id>, onEvent: Option<Id>)
    requires StaffKept(a, b, roles) && Changed(a, b, roles, off, on, offEvent, onEvent)
    requires Changed(b, c, roles, {}, added, None, onEvent)
    ensures Changed(a, c, roles, off, on + added, offEvent, onEvent)
  {
    hide OnePerEvent, OnDuty;
  }

  // ----- the steps of the service

  // The users of a cafe's agents.
  ghost function Users(agents: map<Id, Agent>, cafe: Id, onlyActive: bool): set<Id> {
    set a | a in agents && agents[a].cafe == cafe && (onlyActive ==> agents[a].active) :: agents[a].user
  }

  function Closed(assignments: map<Id, Assignment>, cafe: Id): map<Id, Assignment> {
    map id | id in assignments ::
      if assignments[id].cafe == cafe then assignments[id].(isOpen := false) else assignments[id]
  }

  // The assignments before a new one opens: the open ones are closed when the cafe had an event.
  function Vacated(cafes: map<Id, Cafe>, assignments: map<Id, Assignment>, cafe: Id): map<Id, Assignment>
    requires cafe in cafes
  {
    if cafes[cafe].activeEvent.Some? then Closed(assignments, cafe) else assignments
  }

  datatype Op =
    | Open(cafe: Id, row: Cafe)
    | Edit(cafe: Id, row: Cafe)
    | Mark(cafe: Id, status: Status)
    | Engage(agent: Id, engaged: Agent)
    | Switch(agent: Id, active: bool)
    | Dismiss(agent: Id)
    | Assign(cafe: Id, event: Id)
    | Unassign(cafe: Id)

  // Staff rows are kept but for the duty that moves; without a seeded role nobody is put on duty.
  ghost predicate Moved(s: Tables, t: Tables, roles: Roles, off: set<Id>, on: set<Id>, offEvent: Option<Id>,
                        onEvent: Option<Id>)
  {
    StaffKept(s.staff, t.staff, roles) &&
    (Seeded(roles) ==> Changed(s.staff, t.staff, roles, off, on, offEvent, onEvent))
  }

  // What one successful call does to the tables.
  ghost predicate Effect(s: Tables, t: Tables, roles: Roles, op: Op) {
    match op
    case Open(c, row) =>
      c !in s.cafes && row.status == Draft && row.activeEvent.None? && t == s.(cafes := s.cafes[c := row])
    case Edit(c, row) =>
      && c in s.cafes && row.status == s.cafes[c].status && row.activeEvent == s.cafes[c].activeEvent
      && t == s.(cafes := s.cafes[c := row])
    case Mark(c, status) =>
      && c in s.cafes && (status == Published ==> s.cafes[c].activeEvent.Some?)
      && t == s.(cafes := s.cafes[c := s.cafes[c].(status := status)])
    case Engage(a, row) =>
      && a !in s.agents && row.active && row.cafe in s.cafes && row.user in t.users && s.users <= t.users
      && (forall b | b in s.agents :: s.agents[b].cafe != row.cafe || s.agents[b].user != row.user)
      && t == s.(agents := s.agents[a := row], users := t.users, staff := t.staff)
      && Moved(s, t, roles, {}, {row.user}, None, s.cafes[row.cafe].activeEvent)
    case Switch(a, active) =>
      && a in s.agents && s.agents[a].cafe in s.cafes
      && t == s.(agents := s.agents[a := s.agents[a].(active := active)], staff := t.staff)
      && var event := s.cafes[s.agents[a].cafe].activeEvent;
      if active then Moved(s, t, roles, {}, {s.agents[a].user}, None, event)
      else Moved(s, t, roles, {s.agents[a].user}, {}, event, None)
    case Dismiss(a) =>
      && a in s.agents && s.agents[a].cafe in s.cafes
      && t == s.(agents := s.agents - {a}, staff := t.staff)
      && Moved(s, t, roles, {s.agents[a].user}, {}, s.cafes[s.agents[a].cafe].activeEvent, None)
    case Assign(c, event) =>
      && c in s.cafes
      && if s.cafes[c].activeEvent == Some(event) then t == s else
      && t.agents == s.agents && t.users == s.users
      && t.cafes == s.cafes[c := s.cafes[c].(activeEvent := Some(event))]
      && (exists id: Id :: Opened(s, t, c, event, id))
      && Moved(s, t, roles, Users(s.agents, c, false), Users(s.agents, c, true), s.cafes[c].activeEvent, Some(event))
    case Unassign(c) =>
      && c in s.cafes
      && if s.cafes[c].activeEvent.None? then t == s else
      && t.agents == s.agents && t.users == s.users
      && t.cafes == s.cafes[c := Vacant(s.cafes[c])] && t.assignments == Closed(s.assignments, c)
      && Moved(s, t, roles, Users(s.agents, c, false), {}, s.cafes[c].activeEvent, None)
  }

  ghost predicate Opened(s: Tables, t: Tables, cafe: Id, event: Id, id: Id)
    requires cafe in s.cafes
  {
    id !in s.assignments &&
    t.assignments == Vacated(s.cafes, s.assignments, cafe)[id := Assignment(cafe, event, true)]
  }

  // A cafe that loses its event is no longer published.
  function Vacant(row: Cafe): Cafe {
    row.(activeEvent := None, status := if row.status == Published then Draft else row.status)
  }

  // ----- every step keeps the tables sound

  lemma EffectSound(s: Tables, t: Tables, roles: Roles, op: Op)
    requires Sound(s) && Effect(s, t, roles, op)
    ensures Sound(t)
  {
    hide ActiveIsOpen, Moved, Closed, Vacated, Opened, Users, Sound, OncePerCafe;
    match op
    case Open(c, row) =>
      CafeRowSound(s, t, c, row);
    case Edit(c, row) =>
      SoundParts(s);
      CafeRowSound(s, t, c, row);
    case Mark(c, status) =>
      CafeRowSound(s, t, c, s.cafes[c].(status := status));
    case Engage(a, row) =>
      AgentRowSound(s, t, a, row);
    case Switch(a, active) =>
      SoundParts(s);
      AgentRowSound(s, t, a, s.agents[a].(active := active));
    case Dismiss(a) =>
      AgentGoneSound(s, t, a);
    case Assign(c, event) =>
      if s.cafes[c].activeEvent != Some(event) {
        AssignedSound(s, t, c, event);
      }
    case Unassign(c) =>
      if s.cafes[c].activeEvent.Some? {
        UnassignedSound(s, t, c);
      }
  }

  lemma SoundParts(t: Tables)
    requires Sound(t)
    ensures forall c | c in t.cafes && t.cafes[c].status == Published :: t.cafes[c].activeEvent.Some?
    ensures forall a | a in t.agents :: t.agents[a].cafe in t.cafes && t.agents[a].user in t.users
    ensures forall a, b | a in t.agents && b in t.agents && a != b ::
      t.agents[a].cafe != t.agents[b].cafe || t.agents[a].user != t.agents[b].user
  {
    hide ActiveIsOpen;
  }

  // A cafe row that is new, or keeps its event, leaves events and assignments in step.
  lemma CafeRowSound(s: Tables, t: Tables, c: Id, row: Cafe)
    requires Sound(s) && t == s.(cafes := s.cafes[c := row])
    requires row.status == Published ==> row.activeEvent.Some?
    requires if c in s.cafes then row.activeEvent == s.cafes[c].activeEvent else row.activeEvent.None?
    ensures Sound(t)
  {
    hide OncePerCafe;
  }

  // An agent row that is new to its cafe, or keeps its cafe and user.
  lemma AgentRowSound(s: Tables, t: Tables, a: Id, row: Agent)
    requires Sound(s) && t == s.(agents := s.agents[a := row], users := t.users, staff := t.staff)
    requires s.users <= t.users && row.cafe in s.cafes && row.user in t.users
    requires forall b | b in s.agents && b != a :: s.agents[b].cafe != row.cafe || s.agents[b].user != row.user
    ensures Sound(t)
  {
    hide ActiveIsOpen;
  }

  lemma AgentGoneSound(s: Tables, t: Tables, a: Id)
    requires Sound(s) && t == s.(agents := s.agents - {a}, staff := t.staff)
    ensures Sound(t)
  {
    hide ActiveIsOpen;
  }

  lemma AssignedSound(s: Tables, t: Tables, cafe: Id, event: Id)
    requires Sound(s) && cafe in s.cafes && t.cafes == s.cafes[cafe := s.cafes[cafe].(activeEvent := Some(event))]
    requires t.agents == s.agents && t.users == s.users
    requires exists id: Id :: Opened(s, t, cafe, event, id)
    ensures Sound(t)
  {
    hide ActiveIsOpen, OncePerCafe;
    var id: Id :| Opened(s, t, cafe, event, id);
    var closed := Vacated(s.cafes, s.assignments, cafe);
    NoneOpen(s.cafes, s.assignments, cafe);
    OneOpen(t.cafes, closed, cafe, event, id);
    forall c | c in s.cafes && c != cafe ensures ActiveIsOpen(t.cafes, t.assignments, c) {
      OthersOpen(s.cafes, s.assignments, t.cafes, t.assignments, c);
    }
  }

  lemma UnassignedSound(s: Tables, t: Tables, cafe: Id)
    requires Sound(s) && cafe in s.cafes && t.cafes == s.cafes[cafe := Vacant(s.cafes[cafe])]
    requires t.agents == s.agents && t.users == s.users && t.assignments == Closed(s.assignments, cafe)
    ensures Sound(t)
  {
    hide ActiveIsOpen, OncePerCafe;
    NoneLeft(t.cafes, t.assignments, cafe);
    forall c | c in s.cafes && c != cafe ensures ActiveIsOpen(t.cafes, t.assignments, c) {
      OthersOpen(s.cafes, s.assignments, t.cafes, t.assignments, c);
    }
  }

  lemma NoneOpen(cafes: map<Id, Cafe>, assignments: map<Id, Assignment>, cafe: Id)
    requires cafe in cafes && ActiveIsOpen(cafes, assignments, cafe)
    ensures var closed := Vacated(cafes, assignments, cafe);
      forall id | id in closed :: !OpenFor(closed, id, cafe)
  {
  }

  lemma OneOpen(cafes: map<Id, Cafe>, closed: map<Id, Assignment>, cafe: Id, event: Id, id: Id)
    requires cafe in cafes && cafes[cafe].activeEvent == Some(event) && id !in closed
    requires forall other | other in closed :: !OpenFor(closed, other, cafe)
    ensures ActiveIsOpen(cafes, closed[id := Assignment(cafe, event, true)], cafe)
  {
    var after := closed[id := Assignment(cafe, event, true)];
    assert OpenFor(after, id, cafe);
    forall other | other in after && OpenFor(after, other, cafe) ensures other == id {
      assert other != id ==> OpenFor(closed, other, cafe);
    }
  }

  lemma NoneLeft(cafes: map<Id, Cafe>, assignments: map<Id, Assignment>, cafe: Id)
    requires cafe in cafes && cafes[cafe].activeEvent.None?
    requires forall id | id in assignments && assignments[id].cafe == cafe :: !assignments[id].isOpen
    ensures ActiveIsOpen(cafes, assignments, cafe)
  {
  }

  lemma OthersOpen(cafes: map<Id, Cafe>, assignments: map<Id, Assignment>, cafes': map<Id, Cafe>,
                   assignments': map<Id, Assignment>, c: Id)
    requires c in cafes && c in cafes' && cafes'[c] == cafes[c] && ActiveIsOpen(cafes, assignments, c)
    requires assignments.Keys <= assignments'.Keys
    requires forall id | id in assignments && (assignments[id].cafe == c || OpenFor(assignments', id, c)) ::
      assignments'[id] == assignments[id]
    requires forall id | id in assignments' && id !in assignments :: assignments'[id].cafe != c
    ensures ActiveIsOpen(cafes', assignments', c)
  {
  }

  // ----- what each step does to being in step

  // One agent's part in working.
  predicate WorksAs(cafes: map<Id, Cafe>, agents: map<Id, Agent>, a: Id, user: Id, event: Id) {
    && a in agents && agents[a].user == user && agents[a].active
    && agents[a].cafe in cafes && cafes[agents[a].cafe].activeEvent == Some(event)
  }

  lemma WorkingByAgent(cafes: map<Id, Cafe>, agents: map<Id, Agent>, user: Id, event: Id)
    ensures Working(cafes, agents, user, event) <==> exists a :: WorksAs(cafes, agents, a, user, event)
  {
    if Working(cafes, agents, user, event) {
      var a :| a in agents && agents[a].user == user && agents[a].active
               && agents[a].cafe in cafes && cafes[agents[a].cafe].activeEvent == Some(event);
      assert WorksAs(cafes, agents, a, user, event);
    }
    if a :| WorksAs(cafes, agents, a, user, event) {
      assert a in agents;
    }
  }

  // The user is at work on the cafe's event for another cafe.
  ghost predicate WorksElsewhere(t: Tables, cafe: Id, user: Id) {
    cafe in t.cafes && t.cafes[cafe].activeEvent.Some? &&
    exists b: Id :: b in t.agents && t.agents[b].cafe != cafe &&
                    WorksAs(t.cafes, t.agents, b, user, t.cafes[cafe].activeEvent.value)
  }

  // An agent that is added or made active takes the duty with it, and nobody falls out of step.
  lemma ActiveSynced(s: Tables, t: Tables, roles: Roles, a: Id, row: Agent, user: Id)
    requires row.cafe in s.cafes && row.active && t.cafes == s.cafes && t.agents == s.agents[a := row]
    requires a in s.agents ==> s.agents[a] == row.(active := s.agents[a].active)
    requires Changed(s.staff, t.staff, roles, {}, {row.user}, None, s.cafes[row.cafe].activeEvent)
    requires OnePerEvent(s.staff, roles, user) && Synced(s, roles, user)
    ensures Synced(t, roles, user)
  {
    hide OnDuty, OnePerEvent, Working;
    forall e: Id ensures OnDuty(t.staff, roles, user, e) <==> Working(t.cafes, t.agents, user, e) {
      WorkingByAgent(s.cafes, s.agents, user, e);
      WorkingByAgent(t.cafes, t.agents, user, e);
      assert OnDuty(s.staff, roles, user, e) <==> Working(s.cafes, s.agents, user, e);
      if b :| WorksAs(s.cafes, s.agents, b, user, e) {
        assert WorksAs(t.cafes, t.agents, b, user, e);
      }
      assert WorksAs(t.cafes, t.agents, a, user, e) <==> user == row.user && s.cafes[row.cafe].activeEvent == Some(e);
      if b :| b != a && WorksAs(t.cafes, t.agents, b, user, e) {
        assert WorksAs(s.cafes, s.agents, b, user, e);
      }
    }
  }

  // An agent that is suspended or removed leaves the duty, and its user stays in step exactly when no other cafe has
  // the user at work on the same event.
  lemma InactiveSynced(s: Tables, t: Tables, roles: Roles, a: Id, user: Id)
    requires a in s.agents && s.agents[a].cafe in s.cafes && OncePerCafe(s.agents)
    requires t.cafes == s.cafes
    requires t.agents == s.agents - {a} || t.agents == s.agents[a := s.agents[a].(active := false)]
    requires Changed(s.staff, t.staff, roles, {s.agents[a].user}, {}, s.cafes[s.agents[a].cafe].activeEvent, None)
    requires OnePerEvent(s.staff, roles, user) && Synced(s, roles, user)
    ensures Synced(t, roles, user) <==> !(user == s.agents[a].user && WorksElsewhere(s, s.agents[a].cafe, user))
  {
    hide OnDuty, OnePerEvent, Working;
    var event := s.cafes[s.agents[a].cafe].activeEvent;
    forall e: Id
      ensures Working(t.cafes, t.agents, user, e) <==> exists b :: b != a && WorksAs(s.cafes, s.agents, b, user, e)
      ensures OnDuty(t.staff, roles, user, e) <==>
        Working(s.cafes, s.agents, user, e) && !(event == Some(e) && user == s.agents[a].user)
      ensures Working(s.cafes, s.agents, user, e) <==> exists b :: WorksAs(s.cafes, s.agents, b, user, e)
      ensures WorksAs(s.cafes, s.agents, a, user, e) ==> event == Some(e) && user == s.agents[a].user
    {
      WorkingByAgent(s.cafes, s.agents, user, e);
      WorkingByAgent(t.cafes, t.agents, user, e);
      assert OnDuty(s.staff, roles, user, e) <==> Working(s.cafes, s.agents, user, e);
      forall b ensures WorksAs(t.cafes, t.agents, b, user, e) <==> b != a && WorksAs(s.cafes, s.agents, b, user, e) { }
    }
    if user == s.agents[a].user && event.Some? {
      forall b | WorksAs(s.cafes, s.agents, b, user, event.value)
        ensures b != a <==> s.agents[b].cafe != s.agents[a].cafe
      {
      }
    }
  }

  // A new active event, or none, takes the old event's duty from all users of the cafe: a user stays in step exactly
  // when no other cafe has the user at work on it.
  lemma EventSynced(s: Tables, t: Tables, roles: Roles, cafe: Id, row: Cafe, user: Id)
    requires cafe in s.cafes && t.cafes == s.cafes[cafe := row] && s.cafes[cafe].activeEvent != row.activeEvent
    requires t.agents == s.agents
    requires Changed(s.staff, t.staff, roles, Users(s.agents, cafe, false), Users(s.agents, cafe, true),
                     s.cafes[cafe].activeEvent, row.activeEvent)
    requires OnePerEvent(s.staff, roles, user) && Synced(s, roles, user)
    ensures Synced(t, roles, user) <==> !(user in Users(s.agents, cafe, false) && WorksElsewhere(s, cafe, user))
  {
  }

  // ----- over whole runs

  // The step takes the user off a duty that another cafe still has the user at work on.
  ghost predicate Clash(s: Tables, op: Op, user: Id) {
    match op
    case Switch(a, active) =>
      !active && a in s.agents && s.agents[a].user == user && WorksElsewhere(s, s.agents[a].cafe, user)
    case Dismiss(a) => a in s.agents && s.agents[a].user == user && WorksElsewhere(s, s.agents[a].cafe, user)
    case Assign(c, event) =>
      && c in s.cafes && s.cafes[c].activeEvent != Some(event)
      && user in Users(s.agents, c, false) && WorksElsewhere(s, c, user)
    case Unassign(c) => user in Users(s.agents, c, false) && WorksElsewhere(s, c, user)
    case _ => false
  }

  // A user in step stays in step exactly when the step does not clash.
  lemma StepSynced(s: Tables, t: Tables, roles: Roles, op: Op, user: Id)
    requires Sound(s) && Effect(s, t, roles, op) && Seeded(roles)
    requires OnePerEvent(s.staff, roles, user) && Synced(s, roles, user)
    ensures Synced(t, roles, user) <==> !Clash(s, op, user)
  {
    hide OnDuty, OnePerEvent, Working, WorksElsewhere, StaffKept, ActiveIsOpen, Opened, Changed, Users, WorksAs;
    match op
    case Open(c, row) =>
      SameWork(s, t, user);
    case Edit(c, row) =>
      SameWork(s, t, user);
    case Mark(c, status) =>
      SameWork(s, t, user);
    case Engage(a, row) =>
      ActiveSynced(s, t, roles, a, row, user);
    case Switch(a, active) =>
      if active {
        ActiveSynced(s, t, roles, a, t.agents[a], user);
      } else {
        InactiveSynced(s, t, roles, a, user);
      }
    case Dismiss(a) =>
      InactiveSynced(s, t, roles, a, user);
    case Assign(c, event) =>
      if s.cafes[c].activeEvent != Some(event) {
        EventSynced(s, t, roles, c, t.cafes[c], user);
      }
    case Unassign(c) =>
      if s.cafes[c].activeEvent.Some? {
        NoneOn(s.staff, t.staff, roles, Users(s.agents, c, false), s.cafes[c].activeEvent, Users(s.agents, c, true));
        EventSynced(s, t, roles, c, t.cafes[c], user);
      } else {
        NoEventNoClash(s, c, user);
      }
  }

  lemma NoEventNoClash(t: Tables, cafe: Id, user: Id)
    requires cafe in t.cafes && t.cafes[cafe].activeEvent.None?
    ensures !WorksElsewhere(t, cafe, user)
  {
  }

  lemma SameWork(s: Tables, t: Tables, user: Id)
    requires t == s.(cafes := t.cafes)
    requires forall a | a in s.agents :: s.agents[a].cafe in s.cafes
    requires forall c | c in s.cafes :: c in t.cafes && t.cafes[c].activeEvent == s.cafes[c].activeEvent
    ensures forall e: Id :: Working(t.cafes, t.agents, user, e) <==> Working(s.cafes, s.agents, user, e)
  {
  }

  // Two cafes with one event, and one user working at both.
  function Shared(): Tables {
    var e, user: Id := 5, 9;
    var cafe := Cafe(0, true, 1, None, Draft, Some(e));
    Tables(map[0 := cafe, 1 := cafe], map[4 := Assignment(0, e, true), 6 := Assignment(1, e, true)],
           map[2 := Agent(0, user, true), 3 := Agent(1, user, true)],
           map[7 := Staff(user, CafePos, Some(e), true, true)], {user})
  }

  lemma SharedOpen()
    ensures ActiveIsOpen(Shared().cafes, Shared().assignments, 0)
    ensures ActiveIsOpen(Shared().cafes, Shared().assignments, 1)
  {
    hide ActiveIsOpen;
    var s, first, second := Shared(), Assignment(0, 5, true), Assignment(1, 5, true);
    OneOpen(s.cafes, map[4 := first], 1, 5, 6);
    OneOpen(s.cafes, map[6 := second], 0, 5, 4);
    assert s.assignments == map[6 := second][4 := first];
    assert s.assignments == map[4 := first][6 := second];
  }

  lemma SharedSound()
    ensures Sound(Shared())
  {
    hide ActiveIsOpen, OncePerCafe;
    var s := Shared();
    SharedOpen();
    SharedOnce();
    assert forall c | c in s.cafes :: c == 0 || c == 1;
  }

  lemma SharedOnce()
    ensures OncePerCafe(Shared().agents)
  {
  }

  lemma SharedSynced(roles: Roles)
    requires roles.cafePos
    ensures OnePerEvent(Shared().staff, roles, 9) && Synced(Shared(), roles, 9)
  {
    var s := Shared();
    assert 7 in s.staff && Concerns(s.staff[7], roles, 9, 5) && s.staff[7].active;
    assert 2 in s.agents && s.agents[2].cafe in s.cafes;
  }

  // An agent of two cafes on one event loses the duty for both when one cafe removes the agent.
  lemma TwoCafes(roles: Roles)
    requires roles.cafePos
    ensures var s := Shared();
      var t := s.(agents := s.agents - {2}, staff := Suspended(s.staff, roles, 9, 5));
      && Sound(s) && Effect(s, t, roles, Dismiss(2))
      && Synced(s, roles, 9) && !Synced(t, roles, 9)
  {
    hide Suspended, StaffKept, Changed, Closed, Vacated, Synced, OnePerEvent, ActiveIsOpen;
    var s := Shared();
    var t := s.(agents := s.agents - {2}, staff := Suspended(s.staff, roles, 9, 5));
    SharedSound();
    SharedSynced(roles);
    SuspendedDuty(s.staff, roles, 9, 5);
    assert 3 in s.agents && WorksAs(s.cafes, s.agents, 3, 9, 5);
    StepSynced(s, t, roles, Dismiss(2), 9);
  }

  // Tables as the service leaves them, call by call, from the first cafe on.
  ghost predicate Run(states: seq<Tables>, ops: seq<Op>, roles: Roles) {
    && |states| == |ops| + 1
    && states[0] == Tables(map[], map[], map[], map[], states[0].users)
    && forall i: nat | i < |ops| :: Effect(states[i], states[i + 1], roles, ops[i])
  }

  // Every run keeps the tables sound, and no user gets two cafe assignments for one event.
  lemma {:induction false} RunSound(states: seq<Tables>, ops: seq<Op>, roles: Roles, i: nat, user: Id)
    requires Run(states, ops, roles) && i < |states|
    ensures Sound(states[i]) && OnePerEvent(states[i].staff, roles, user)
  {
    hide Sound, OnePerEvent, Effect;
    if i == 0 {
      NothingYet(states[0], roles, user);
    } else {
      RunSound(states, ops, roles, i - 1, user);
      assert Effect(states[i - 1], states[i], roles, ops[i - 1]);
      EffectSound(states[i - 1], states[i], roles, ops[i - 1]);
      EffectOnePerEvent(states[i - 1], states[i], roles, ops[i - 1], user);
    }
  }

  lemma NothingYet(t: Tables, roles: Roles, user: Id)
    requires t == Tables(map[], map[], map[], map[], t.users)
    ensures Sound(t) && OnePerEvent(t.staff, roles, user) && Synced(t, roles, user)
  {
  }

  lemma EffectOnePerEvent(s: Tables, t: Tables, roles: Roles, op: Op, user: Id)
    requires Effect(s, t, roles, op) && OnePerEvent(s.staff, roles, user)
    ensures OnePerEvent(t.staff, roles, user)
  {
    hide OnePerEvent, Changed, Users, Opened;
  }

  // In every run from empty tables a user is in step up to a point exactly when no step until then clashes.
  lemma {:induction false} RunSynced(states: seq<Tables>, ops: seq<Op>, roles: Roles, n: nat, user: Id)
    requires Run(states, ops, roles) && Seeded(roles) && n < |states|
    ensures (forall i: nat | i <= n :: Synced(states[i], roles, user)) <==>
            (forall i: nat | i < n :: !Clash(states[i], ops[i], user))
  {
    hide Sound, OnePerEvent, Effect, Synced, Clash;
    if n == 0 {
      NothingYet(states[0], roles, user);
    } else {
      RunSynced(states, ops, roles, n - 1, user);
      RunSound(states, ops, roles, n - 1, user);
      assert Effect(states[n - 1], states[n], roles, ops[n - 1]);
      if Synced(states[n - 1], roles, user) {
        StepSynced(states[n - 1], states[n], roles, ops[n - 1], user);
      }
    }
  }

  // So a user who is never an agent of two cafes is always in step.
  lemma RunOfOneCafe(states: seq<Tables>, ops: seq<Op>, roles: Roles, user: Id)
    requires Run(states, ops, roles) && Seeded(roles)
    requires forall i: nat | i < |states| :: OneCafe(states[i].agents, user)
    ensures forall i: nat | i < |states| :: Synced(states[i], roles, user)
  {
    hide OneCafe, Effect, Synced, Clash;
    forall i: nat | i < |ops| ensures !Clash(states[i], ops[i], user) {
      NoClash(states[i], ops[i], user);
    }
    RunSynced(states, ops, roles, |ops|, user);
  }

  lemma NoClash(s: Tables, op: Op, user: Id)
    requires OneCafe(s.agents, user)
    ensures !Clash(s, op, user)
  {
  }

  // ----- the service

  lemma SetDutyForms(a: map<Id, Staff>, b: map<Id, Staff>, roles: Roles, user: Id, event: Id, active: bool)
    requires Changed(a, b, roles, {user}, if active then {user} else {}, Some(event), Some(event))
    ensures if active then Changed(a, b, roles, {}, {user}, None, Some(event))
            else Changed(a, b, roles, {user}, {}, Some(event), None)
  {
    hide OnDuty, OnePerEvent;
  }

  lemma NeverOnDuty(staff: map<Id, Staff>, roles: Roles, user: Id, event: Id)
    requires forall id | id in staff :: !Concerns(staff[id], roles, user, event)
    ensures Changed(staff, staff, roles, {user}, {}, Some(event), None)
  {
  }

  // What bringing one user's assignment for an event in step writes: one matching row, or one new row, or nothing.
  ghost predicate SyncWrites(before: map<Id, Staff>, after: map<Id, Staff>, roles: Roles, user: Id, event: Id,
                             active: bool)
  {
    if exists id :: id in before && Concerns(before[id], roles, user, event) then
      exists id :: id in before && Concerns(before[id], roles, user, event)
                   && after == before[id := before[id].(active := active)]
    else if active && (roles.cafePos || roles.pos) then
      exists id: Id :: id !in before && NewRow(before, after, roles, user, event, id)
    else after == before
  }

  predicate NewRow(before: map<Id, Staff>, after: map<Id, Staff>, roles: Roles, user: Id, event: Id, id: Id) {
    after == before[id := Staff(user, if roles.cafePos then CafePos else Pos, Some(event), true, true)]
  }

  lemma NothingOn(a: map<Id, Staff>, b: map<Id, Staff>, roles: Roles, off: set<Id>, offEvent: Option<Id>, event: Id)
    requires Changed(a, b, roles, off, {}, offEvent, None)
    ensures Changed(a, b, roles, off, {}, offEvent, Some(event))
  {
    hide OnDuty, OnePerEvent;
  }

  lemma NoneOff(staff: map<Id, Staff>, roles: Roles, off: set<Id>)
    ensures Changed(staff, staff, roles, off, {}, None, None)
  {
  }

  lemma NoneOn(a: map<Id, Staff>, b: map<Id, Staff>, roles: Roles, off: set<Id>, offEvent: Option<Id>, on: set<Id>)
    requires Changed(a, b, roles, off, {}, offEvent, None)
    ensures Changed(a, b, roles, off, on, offEvent, None)
  {
    hide OnDuty, OnePerEvent;
  }

  // A row without an event concerns no duty.
  lemma PlainStaff(staff: map<Id, Staff>, roles: Roles, id: Id, row: Staff)
    requires id !in staff && row.event.None?
    ensures StaffKept(staff, staff[id := row], roles)
    ensures Changed(staff, staff[id := row], roles, {}, {}, None, None)
  {
  }

  ghost predicate StaffBelow(staff: map<Id, Staff>, nextId: Id) {
    forall id | id in staff :: id < nextId
  }

  // What adding an agent writes: the plain row of a new user, and the duty for the active event.
  ghost predicate Enrolled(before: map<Id, Staff>, after: map<Id, Staff>, roles: Roles, user: Id, event: Option<Id>,
                           isNew: bool)
  {
    exists plain: map<Id, Staff> :: EnrolledBy(before, plain, after, roles, user, event, isNew)
  }

  ghost predicate EnrolledBy(before: map<Id, Staff>, plain: map<Id, Staff>, after: map<Id, Staff>, roles: Roles,
                             user: Id, event: Option<Id>, isNew: bool)
  {
    && (if isNew then PlainRow(before, plain, user) else plain == before)
    && (if event.Some? then SyncWrites(plain, after, roles, user, event.value, true) else after == plain)
  }

  ghost predicate PlainRow(before: map<Id, Staff>, after: map<Id, Staff>, user: Id) {
    exists id: Id :: id !in before && id in after && after == before[id := Staff(user, CafePos, None, true, true)]
  }

  lemma SameOpened(s: Tables, mid: Tables, t: Tables, cafe: Id, event: Id)
    requires cafe in s.cafes && t.assignments == mid.assignments
    requires exists id: Id :: Opened(s, mid, cafe, event, id)
    ensures exists id: Id :: Opened(s, t, cafe, event, id)
  {
    var id: Id :| Opened(s, mid, cafe, event, id);
    assert Opened(s, t, cafe, event, id);
  }

  lemma NoEvent(t: Tables, cafe: Id)
    requires Sound(t) && cafe in t.cafes && t.cafes[cafe].activeEvent.None?
    ensures forall id | id in t.assignments && t.assignments[id].cafe == cafe :: !t.assignments[id].isOpen
    ensures t.cafes[cafe].status != Published
  {
    assert ActiveIsOpen(t.cafes, t.assignments, cafe);
    forall id | id in t.assignments && t.assignments[id].cafe == cafe ensures !t.assignments[id].isOpen {
      assert !OpenFor(t.assignments, id, cafe);
    }
  }

  // A field of an update that may be left out.
  function Or<T>(given: Option<T>, was: T): T {
    if given.Some? then given.value else was
  }

  class Service {
    const roles: Roles
    const organizations: set<Id>
    // The events, each with its organization.
    const events: map<Id, Id>
    var cafes: map<Id, Cafe>
    var assignments: map<Id, Assignment>
    var agents: map<Id, Agent>
    var staff: map<Id, Staff>
    var users: set<Id>
    var nextId: Id

    constructor (roles: Roles, organizations: set<Id>, events: map<Id, Id>, users: set<Id>, nextId: Id)
      requires forall u | u in users :: u < nextId
      ensures Valid() && Now() == Tables(map[], map[], map[], map[], users)
      ensures this.roles == roles && this.organizations == organizations && this.events == events
    {
      this.roles, this.organizations, this.events := roles, organizations, events;
      this.users, this.nextId := users, nextId;
      cafes, assignments, agents, staff := map[], map[], map[], map[];
    }

    ghost function Now(): Tables
      reads this
    {
      Tables(cafes, assignments, agents, staff, users)
    }

    ghost predicate Valid()
      reads this
    {
      Sound(Now()) && Below(Now(), nextId)
    }

    // The call went through as this step, or failed and changed nothing.
    twostate predicate Did(ok: bool, op: Op)
      reads this
    {
      if ok then Effect(old(Now()), Now(), roles, op) else Now() == old(Now())
    }

    method CreateCafe(org: Id, named: bool, tables: int, manager: Option<Id>) returns (r: Result<Id, Error>)
      requires Valid()
      modifies `cafes, `nextId
      ensures Valid() && Did(r.Ok?, Open(if r.Ok? then r.value else 0, Cafe(org, named, tables, manager, Draft, None)))
      ensures r.Err? <==> org !in organizations || (manager.Some? && manager.value !in users)
      ensures r.Err? ==> r.error == if org !in organizations then OrganizationMissing else UserMissing
    {
      hide ActiveIsOpen;
      if org !in organizations {
        return Err(OrganizationMissing);
      }
      if manager.Some? && manager.value !in users {
        return Err(UserMissing);
      }
      var id := nextId;
      cafes := cafes[id := Cafe(org, named, tables, manager, Draft, None)];
      nextId := nextId + 1;
      EffectSound(old(Now()), Now(), roles, Open(id, cafes[id]));
      r := Ok(id);
    }

    method UpdateCafe(cafe: Id, named: Option<bool>, tables: Option<int>, manager: Option<Option<Id>>)
      returns (r: Result<(), Error>)
      requires Valid()
      modifies `cafes
      ensures Valid()
      ensures r.Err? <==>
        cafe !in old(cafes) || (manager.Some? && manager.value.Some? && manager.value.value !in users)
      ensures r.Err? ==> r.error == if cafe !in old(cafes) then CafeMissing else UserMissing
      ensures r.Err? ==> Now() == old(Now())
      ensures r.Ok? ==> cafe in cafes && Did(true, Edit(cafe, cafes[cafe]))
      ensures r.Ok? ==>
        var was, row := old(cafes)[cafe], cafes[cafe];
        && row.org == was.org && row.named == (if named.Some? then named.value else was.named)
        && row.tables == (if tables.Some? then tables.value else was.tables)
        && row.manager == (if manager.Some? then manager.value else was.manager)
    {
      hide ActiveIsOpen;
      if cafe !in cafes {
        return Err(CafeMissing);
      }
      if manager.Some? && manager.value.Some? && manager.value.value !in users {
        return Err(UserMissing);
      }
      var was := cafes[cafe];
      cafes := cafes[cafe := was.(named := Or(named, was.named), tables := Or(tables, was.tables),
                                  manager := Or(manager, was.manager))];
      EffectSound(old(Now()), Now(), roles, Edit(cafe, cafes[cafe]));
      r := Ok(());
    }

    // What still keeps a cafe from being published; the menu's count of active items is an input.
    predicate Blocks(cafe: Id, menuItems: nat, b: Blocker)
      requires cafe in cafes
      reads this
    {
      match b
      case NameRequired => !cafes[cafe].named
      case TableCountRequired => cafes[cafe].tables < 1
      case ActiveEventRequired => cafes[cafe].activeEvent.None?
      case MenuItemRequired => menuItems < 1
      case PosAgentRequired => !exists a :: a in agents && agents[a].cafe == cafe && agents[a].active
    }

    ghost predicate Ready(cafe: Id, menuItems: nat)
      requires cafe in cafes
      reads this
    {
      forall b :: !Blocks(cafe, menuItems, b)
    }

    method PublishBlockers(cafe: Id, menuItems: nat) returns (blockers: seq<Blocker>)
      requires cafe in cafes
      ensures forall b :: b in blockers <==> Blocks(cafe, menuItems, b)
    {
      blockers := [];
      if !cafes[cafe].named {
        blockers := blockers + [NameRequired];
      }
      if cafes[cafe].tables < 1 {
        blockers := blockers + [TableCountRequired];
      }
      if cafes[cafe].activeEvent.None? {
        blockers := blockers + [ActiveEventRequired];
      }
      if menuItems < 1 {
        blockers := blockers + [MenuItemRequired];
      }
      if !exists a :: a in agents && agents[a].cafe == cafe && agents[a].active {
        blockers := blockers + [PosAgentRequired];
      }
      forall b ensures b in blockers <==> Blocks(cafe, menuItems, b) {
        match b
        case NameRequired =>
        case TableCountRequired =>
        case ActiveEventRequired =>
        case MenuItemRequired =>
        case PosAgentRequired =>
      }
    }

    method SetStatus(cafe: Id, status: Status, menuItems: nat) returns (r: Result<(), Error>)
      requires Valid() && status != Review
      modifies `cafes
      ensures Valid() && Did(r.Ok?, Mark(cafe, status))
      ensures r.Ok? <==> cafe in old(cafes) && (status == Published ==> old(Ready(cafe, menuItems)))
      ensures status == Published ==>
        (r.Ok? <==>
           && cafe in old(cafes) && old(cafes)[cafe].named && old(cafes)[cafe].tables >= 1
           && old(cafes)[cafe].activeEvent.Some? && menuItems >= 1
           && exists a :: a in agents && agents[a].cafe == cafe && agents[a].active)
      ensures r.Ok? ==> cafes == old(cafes)[cafe := old(cafes)[cafe].(status := status)]
    {
      hide ActiveIsOpen;
      if cafe !in cafes {
        return Err(CafeMissing);
      }
      if status == Published {
        var blockers := PublishBlockers(cafe, menuItems);
        if blockers != [] {
          assert blockers[0] in blockers && Blocks(cafe, menuItems, blockers[0]);
          return Err(NotReady(blockers));
        }
        forall b ensures !Blocks(cafe, menuItems, b) {
          assert b !in blockers;
        }
        assert Ready(cafe, menuItems) && !Blocks(cafe, menuItems, ActiveEventRequired);
        assert !Blocks(cafe, menuItems, NameRequired) && !Blocks(cafe, menuItems, TableCountRequired);
        assert !Blocks(cafe, menuItems, MenuItemRequired) && !Blocks(cafe, menuItems, PosAgentRequired);
      }
      cafes := cafes[cafe := cafes[cafe].(status := status)];
      EffectSound(old(Now()), Now(), roles, Mark(cafe, status));
      r := Ok(());
    }

    method SyncStaff(user: Id, event: Id, active: bool)
      requires StaffBelow(staff, nextId)
      modifies `staff, `nextId
      ensures StaffBelow(staff, nextId) && nextId >= old(nextId)
      ensures StaffKept(old(staff), staff, roles)
      ensures SyncWrites(old(staff), staff, roles, user, event, active)
      ensures Seeded(roles) ==>
        if active then Changed(old(staff), staff, roles, {}, {user}, None, Some(event))
        else Changed(old(staff), staff, roles, {user}, {}, Some(event), None)
    {
      hide StaffKept, OnePerEvent, Changed;
      ChangedNone(staff, roles);
      if !roles.cafePos && !roles.pos {
        return;
      }
      if existing :| existing in staff && staff[existing].user == user && staff[existing].event == Some(event)
                     && ((roles.cafePos && staff[existing].role == CafePos)
                         || (roles.pos && staff[existing].role == Pos && staff[existing].isCafeAgent)) {
        assert Concerns(staff[existing], roles, user, event);
        SetDuty(staff, roles, user, event, existing, active);
        SetDutyForms(staff, staff[existing := staff[existing].(active := active)], roles, user, event, active);
        staff := staff[existing := staff[existing].(active := active)];
        assert existing in old(staff) && Concerns(old(staff)[existing], roles, user, event);
        return;
      }
      if !active {
        NeverOnDuty(staff, roles, user, event);
        return;
      }
      var row := Staff(user, if roles.cafePos then CafePos else Pos, Some(event), true, true);
      NewDuty(staff, roles, nextId, row);
      SetDutyForms(staff, staff[nextId := row], roles, user, event, true);
      staff := staff[nextId := row];
      assert nextId !in old(staff) && NewRow(old(staff), staff, roles, user, event, nextId);
      nextId := nextId + 1;
    }

    method SuspendStaff(user: Id, event: Id)
      modifies `staff
      ensures staff == Suspended(old(staff), roles, user, event) && staff.Keys == old(staff.Keys)
      ensures forall id | id in staff ::
        var was := old(staff)[id];
        staff[id] ==
        if was.user == user && was.event == Some(event)
           && ((roles.cafePos && was.role == CafePos) || (roles.pos && was.role == Pos && was.isCafeAgent))
        then was.(active := false) else was
      ensures StaffKept(old(staff), staff, roles)
      ensures Changed(old(staff), staff, roles, {user}, {}, Some(event), None)
    {
      SuspendedDuty(staff, roles, user, event);
      staff := Suspended(staff, roles, user, event);
    }

    // The users of a cafe's agents, as a query lists them.
    method UserList(cafe: Id, onlyActive: bool) returns (list: seq<Id>)
      ensures forall u :: u in list <==> u in Users(agents, cafe, onlyActive)
    {
      var left := set a | a in agents && agents[a].cafe == cafe && (onlyActive ==> agents[a].active) :: agents[a].user;
      list := [];
      while left != {}
        invariant forall u :: u in Users(agents, cafe, onlyActive) <==> u in list || u in left
        decreases left
      {
        var u :| u in left;
        list := list + [u];
        left := left - {u};
      }
    }

    method SuspendAll(cafe: Id, event: Id)
      modifies `staff
      ensures staff.Keys == old(staff.Keys) && StaffKept(old(staff), staff, roles)
      ensures Changed(old(staff), staff, roles, Users(agents, cafe, false), {}, Some(event), None)
    {
      hide StaffKept, OnePerEvent, Changed, Users, Suspended;
      var list := UserList(cafe, false);
      ChangedNone(staff, roles);
      ghost var off: set<Id> := {};
      for i := 0 to |list|
        invariant staff.Keys == old(staff.Keys) && StaffKept(old(staff), staff, roles)
        invariant forall u :: u in off <==> u in list[..i]
        invariant Changed(old(staff), staff, roles, off, {}, Some(event), None)
      {
        ghost var start := staff;
        SuspendStaff(list[i], event);
        StaffKeptTrans(old(staff), start, staff, roles);
        MoreOff(old(staff), start, staff, roles, off, list[i], event);
        off := off + {list[i]};
      }
      assert off == Users(agents, cafe, false);
    }

    method SyncActive(cafe: Id, event: Id, ghost before: map<Id, Staff>, ghost off: set<Id>, ghost offEvent: Option<Id>)
      requires StaffBelow(staff, nextId) && StaffKept(before, staff, roles)
      requires Changed(before, staff, roles, off, {}, offEvent, None)
      modifies `staff, `nextId
      ensures StaffBelow(staff, nextId) && nextId >= old(nextId) && StaffKept(before, staff, roles)
      ensures Seeded(roles) ==>
        Changed(before, staff, roles, off, Users(agents, cafe, true), offEvent, Some(event))
    {
      hide StaffKept, OnePerEvent, Changed, Users, StaffBelow, SyncWrites;
      var list := UserList(cafe, true);
      ghost var on: set<Id> := {};
      NothingOn(before, staff, roles, off, offEvent, event);
      for i := 0 to |list|
        invariant StaffBelow(staff, nextId) && nextId >= old(nextId) && StaffKept(before, staff, roles)
        invariant forall u :: u in on <==> u in list[..i]
        invariant Seeded(roles) ==> Changed(before, staff, roles, off, on, offEvent, Some(event))
      {
        ghost var start := staff;
        SyncStaff(list[i], event, true);
        StaffKeptTrans(before, start, staff, roles);
        if Seeded(roles) {
          MoreOn(before, start, staff, roles, off, on, {list[i]}, offEvent, Some(event));
        }
        on := on + {list[i]};
      }
      assert on == Users(agents, cafe, true);
    }

    // The transaction of an assignment: the open one is closed, a new one opened.
    method Reassign(cafe: Id, event: Id)
      requires Below(Now(), nextId) && cafe in cafes
      modifies `cafes, `assignments, `nextId
      ensures Below(Now(), nextId) && cafes == old(cafes)[cafe := old(cafes)[cafe].(activeEvent := Some(event))]
      ensures exists id: Id :: Opened(old(Now()), Now(), cafe, event, id)
    {
      var id := nextId;
      if cafes[cafe].activeEvent.Some? {
        assignments := Closed(assignments, cafe);
      }
      assignments := assignments[id := Assignment(cafe, event, true)];
      nextId := nextId + 1;
      cafes := cafes[cafe := cafes[cafe].(activeEvent := Some(event))];
      assert Opened(old(Now()), Now(), cafe, event, id);
    }

    method AssignEvent(cafe: Id, event: Id) returns (r: Result<(), Error>)
      requires Valid()
      modifies `cafes, `assignments, `staff, `nextId
      ensures Valid() && Did(r.Ok?, Assign(cafe, event))
      ensures r.Ok? <==> cafe in old(cafes) && event in events && events[event] == old(cafes)[cafe].org
    {
      hide StaffKept, OnePerEvent, Changed, Users, Sound, SyncWrites, Vacated, Opened, Closed;
      ChangedNone(staff, roles);
      if cafe !in cafes {
        return Err(CafeMissing);
      }
      if event !in events {
        return Err(EventMissing);
      }
      if events[event] != cafes[cafe].org {
        return Err(OtherOrganization);
      }
      if cafes[cafe].activeEvent == Some(event) {
        return Ok(());
      }
      var previous := cafes[cafe].activeEvent;
      ghost var start := Now();
      Reassign(cafe, event);
      ghost var mid := Now();
      if previous.Some? {
        SuspendAll(cafe, previous.value);
      } else {
        NoneOff(start.staff, roles, Users(agents, cafe, false));
      }
      SyncActive(cafe, event, start.staff, Users(agents, cafe, false), previous);
      SameOpened(start, mid, Now(), cafe, event);
      EffectSound(start, Now(), roles, Assign(cafe, event));
      r := Ok(());
    }

    method UnassignEvent(cafe: Id) returns (r: Result<(), Error>)
      requires Valid()
      modifies `cafes, `assignments, `staff
      ensures Valid() && Did(r.Ok?, Unassign(cafe))
      ensures r.Ok? <==> cafe in old(cafes)
      ensures r.Ok? ==>
        var was := old(cafes)[cafe];
        && cafes == old(cafes)[cafe := was.(activeEvent := None,
                                            status := if was.status == Published then Draft else was.status)]
        && assignments.Keys == old(assignments).Keys
        && forall id | id in assignments ::
          assignments[id] == if old(assignments)[id].cafe == cafe then old(assignments)[id].(isOpen := false)
                             else old(assignments)[id]
    {
      hide StaffKept, OnePerEvent, Changed, Users, ActiveIsOpen, SyncWrites;
      ChangedNone(staff, roles);
      if cafe !in cafes {
        return Err(CafeMissing);
      }
      if cafes[cafe].activeEvent.None? {
        NoEvent(Now(), cafe);
        return Ok(());
      }
      var previous := cafes[cafe].activeEvent.value;
      assignments := Closed(assignments, cafe);
      cafes := cafes[cafe := Vacant(cafes[cafe])];
      SuspendAll(cafe, previous);
      EffectSound(old(Now()), Now(), roles, Unassign(cafe));
      r := Ok(());
    }

    method CreateUser(candidate: Candidate) returns (r: Result<Id, Error>)
      requires Below(Now(), nextId) && candidate.NewUser?
      modifies `users, `staff, `nextId
      ensures Below(Now(), nextId) && StaffKept(old(staff), staff, roles)
      ensures r.Err? <==> NewUserError(candidate).Some?
      ensures r.Err? ==> r.error == NewUserError(candidate).value && Now() == old(Now())
      ensures r.Ok? ==> r.value !in old(users) && users == old(users) + {r.value}
      ensures r.Ok? ==> PlainRow(old(staff), staff, r.value)
      ensures Changed(old(staff), staff, roles, {}, {}, None, None)
    {
      hide StaffKept, OnePerEvent, Changed;
      ChangedNone(staff, roles);
      if !candidate.complete {
        return Err(FieldsMissing);
      }
      if !roles.cafePos {
        return Err(RoleMissing);
      }
      if candidate.taken {
        return Err(NameTaken);
      }
      var user := nextId;
      users := users + {user};
      var id: Id := nextId + 1;
      PlainStaff(staff, roles, id, Staff(user, CafePos, None, true, true));
      staff := staff[id := Staff(user, CafePos, None, true, true)];
      assert id !in old(staff) && id in staff;
      nextId := nextId + 2;
      r := Ok(user);
    }

    function NewUserError(candidate: Candidate): Option<Error>
      requires candidate.NewUser?
    {
      if !candidate.complete then Some(FieldsMissing)
      else if !roles.cafePos then Some(RoleMissing)
      else if candidate.taken then Some(NameTaken)
      else None
    }

    // Why an agent cannot be added. A user created for it is never an agent yet.
    function AddError(cafe: Id, candidate: Candidate): Option<Error>
      reads this
    {
      if cafe !in cafes then Some(CafeMissing) else
      match candidate
      case NewUser(_, _) => NewUserError(candidate)
      case Existing(user) =>
        if user !in users then Some(UserMissing)
        else if exists a :: a in agents && agents[a].cafe == cafe && agents[a].user == user then Some(AlreadyAgent)
        else None
    }

    // Makes a user an agent of the cafe and puts the user on duty for its active event.
    method Enroll(cafe: Id, user: Id, ghost before: map<Id, Staff>) returns (r: Result<Id, Error>)
      requires Below(Now(), nextId) && cafe in cafes
      requires StaffKept(before, staff, roles) && Changed(before, staff, roles, {}, {}, None, None)
      modifies `agents, `staff, `nextId
      ensures Below(Now(), nextId)
      ensures r.Err? <==> exists a :: a in old(agents) && old(agents)[a].cafe == cafe && old(agents)[a].user == user
      ensures r.Err? ==> r.error == AlreadyAgent && Now() == old(Now())
      ensures r.Ok? ==> r.value !in old(agents) && agents == old(agents)[r.value := Agent(cafe, user, true)]
      ensures r.Ok? ==>
        if cafes[cafe].activeEvent.Some?
        then SyncWrites(old(staff), staff, roles, user, cafes[cafe].activeEvent.value, true) else staff == old(staff)
      ensures StaffKept(before, staff, roles)
      ensures r.Ok? && Seeded(roles) ==>
        Changed(before, staff, roles, {}, {user}, None, cafes[cafe].activeEvent)
    {
      hide StaffKept, OnePerEvent, Changed, SyncWrites;
      if exists a :: a in agents && agents[a].cafe == cafe && agents[a].user == user {
        return Err(AlreadyAgent);
      }
      var id := nextId;
      agents := agents[id := Agent(cafe, user, true)];
      nextId := nextId + 1;
      var event := cafes[cafe].activeEvent;
      ghost var start := staff;
      if event.Some? {
        SyncStaff(user, event.value, true);
        StaffKeptTrans(before, start, staff, roles);
        if Seeded(roles) {
          NothingOn(before, start, roles, {}, None, event.value);
          MoreOn(before, start, staff, roles, {}, {}, {user}, None, event);
          assert {} + {user} == {user};
        }
      } else {
        NoneOn(before, staff, roles, {}, None, {user});
      }
      r := Ok(id);
    }

    method AddAgent(cafe: Id, candidate: Candidate) returns (r: Result<Id, Error>)
      requires Valid()
      modifies `agents, `users, `staff, `nextId
      ensures Valid()
      ensures r.Err? <==> old(AddError(cafe, candidate)).Some?
      ensures r.Err? ==> r.error == old(AddError(cafe, candidate)).value && Now() == old(Now())
      ensures r.Ok? <==>
        && cafe in old(cafes) && (candidate.NewUser? ==> candidate.complete && !candidate.taken && roles.cafePos)
        && (candidate.Existing? ==>
              && candidate.user in old(users)
              && !exists a :: a in old(agents) && old(agents)[a].cafe == cafe && old(agents)[a].user == candidate.user)
      ensures r.Ok? ==> r.value in agents && Did(true, Engage(r.value, agents[r.value]))
      ensures r.Ok? ==>
        var user := agents[r.value].user;
        && agents[r.value] == Agent(cafe, user, true)
        && (if candidate.Existing? then user == candidate.user && users == old(users)
            else user !in old(users) && users == old(users) + {user})
        && Enrolled(old(staff), staff, roles, user, cafes[cafe].activeEvent, candidate.NewUser?)
    {
      hide StaffKept, OnePerEvent, Changed, ActiveIsOpen, SyncWrites, PlainRow;
      ChangedNone(staff, roles);
      if cafe !in cafes {
        return Err(CafeMissing);
      }
      var user: Id;
      if candidate.NewUser? {
        var created := CreateUser(candidate);
        if created.Err? {
          return Err(created.error);
        }
        user := created.value;
      } else {
        user := candidate.user;
        if user !in users {
          return Err(UserMissing);
        }
      }
      ghost var plain := staff;
      r := Enroll(cafe, user, old(staff));
      if r.Ok? {
        assert EnrolledBy(old(staff), plain, staff, roles, user, cafes[cafe].activeEvent, candidate.NewUser?);
        EffectSound(old(Now()), Now(), roles, Engage(r.value, agents[r.value]));
      }
    }

    method UpdateAgentStatus(cafe: Id, agent: Id, active: bool) returns (r: Result<(), Error>)
      requires Valid()
      modifies `agents, `staff, `nextId
      ensures Valid() && Did(r.Ok?, Switch(agent, active))
      ensures r.Ok? <==> cafe in cafes && agent in old(agents) && old(agents)[agent].cafe == cafe
      ensures if r.Ok? && cafes[cafe].activeEvent.Some?
              then SyncWrites(old(staff), staff, roles, old(agents)[agent].user, cafes[cafe].activeEvent.value, active)
              else staff == old(staff)
    {
      hide StaffKept, OnePerEvent, Changed, ActiveIsOpen, SyncWrites;
      ChangedNone(staff, roles);
      if cafe !in cafes {
        return Err(CafeMissing);
      }
      if agent !in agents || agents[agent].cafe != cafe {
        return Err(AgentMissing);
      }
      var user := agents[agent].user;
      agents := agents[agent := agents[agent].(active := active)];
      var event := cafes[cafe].activeEvent;
      if event.Some? {
        SyncStaff(user, event.value, active);
      } else {
        NoneOn(staff, staff, roles, {}, None, {user});
        NoneOff(staff, roles, {user});
      }
      EffectSound(old(Now()), Now(), roles, Switch(agent, active));
      r := Ok(());
    }

    method RemoveAgent(cafe: Id, agent: Id) returns (r: Result<(), Error>)
      requires Valid()
      modifies `agents, `staff
      ensures Valid() && Did(r.Ok?, Dismiss(agent))
      ensures r.Ok? <==> cafe in cafes && agent in old(agents) && old(agents)[agent].cafe == cafe
      ensures staff == if r.Ok? && cafes[cafe].activeEvent.Some?
                       then Suspended(old(staff), roles, old(agents)[agent].user, cafes[cafe].activeEvent.value)
                       else old(staff)
    {
      hide StaffKept, OnePerEvent, Changed, ActiveIsOpen, SyncWrites, Suspended;
      ChangedNone(staff, roles);
      if cafe !in cafes {
        return Err(CafeMissing);
      }
      if agent !in agents || agents[agent].cafe != cafe {
        return Err(AgentMissing);
      }
      var user := agents[agent].user;
      agents := agents - {agent};
      if cafes[cafe].activeEvent.Some? {
        SuspendStaff(user, cafes[cafe].activeEvent.value);
      } else {
        NoneOff(staff, roles, {user});
      }
      EffectSound(old(Now()), Now(), roles, Dismiss(agent));
      r := Ok(());
    }
  }
}
