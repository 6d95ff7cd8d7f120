/** Sessions snapshot the authorization versions of their user and membership; the guard
    compares them on every request. Refusal, and what an accepted session has outlived. */
module Sessions {
  import opened Basics

  datatype Status = Invited | Active | Suspended

  datatype User = User(active: bool, version: nat)

  datatype Membership = Membership(tenant: Id, user: Option<Id>, status: Status, version: nat)

  /** The tenant a session acts in, through one membership at one version. */
  datatype Context = Context(tenant: Id, member: Id, version: nat)

  datatype Session = Session(user: Id, userVersion: nat, context: Option<Context>, restricted: bool, expires: Time,
                             revoked: bool)

  /** A transaction that has read its tenant's status, without a lock on the tenant, and
      has yet to insert its session. */
  datatype Errand =
    | SigningIn(user: Id, chosen: Option<Id>)
    | Switching(token: Id, member: Id)
    | Accepting(member: Id, user: Id)

  /** Committed tables, the clock, the sessions whose holder has a request in flight (the
      guard runs in one transaction and the request's own work in a later one), and the
      transactions that are between their status read and their insert. */
  datatype World = World(now: Time, users: map<Id, User>, tenants: map<Id, bool>, members: map<Id, Membership>,
                         sessions: map<Id, Session>, requests: set<Id>, errands: map<Id, Errand>)

  datatype Refusal = Unauthenticated | Stale | MfaRequired

  // ---------------------------------------------------------------------------
  // The guard
  // ---------------------------------------------------------------------------

  predicate UserCurrent(w: World, s: Session) {
    s.user in w.users && w.users[s.user].active && s.userVersion == w.users[s.user].version
  }

  predicate TenantActive(w: World, tenant: Id) {
    tenant in w.tenants && w.tenants[tenant]
  }

  predicate MemberCurrent(w: World, c: Context) {
    && c.member in w.members && w.members[c.member].tenant == c.tenant
    && w.members[c.member].status.Active? && c.version == w.members[c.member].version
  }

  function Guard(w: World, token: Id, allowRestricted: bool): Result<Session, Refusal> {
    if token !in w.sessions then Err(Unauthenticated)
    else
      var s := w.sessions[token];
      if s.revoked || s.expires <= w.now then Err(Unauthenticated)
      else if !UserCurrent(w, s) then Err(Stale)
      else if s.context.Some? && !(TenantActive(w, s.context.value.tenant) && MemberCurrent(w, s.context.value)) then
        Err(Stale)
      else if s.restricted && !allowRestricted then Err(MfaRequired)
      else Ok(s)
  }

  // ---------------------------------------------------------------------------
  // Revocation and version bumps
  // ---------------------------------------------------------------------------

  predicate InTenant(s: Session, tenant: Id) {
    s.context.Some? && s.context.value.tenant == tenant
  }

  predicate Through(s: Session, tenant: Id, affected: set<Id>) {
    InTenant(s, tenant) && s.context.value.member in affected
  }

  function RevokeOne(sessions: map<Id, Session>, token: Id): map<Id, Session> {
    map t | t in sessions :: if t == token then sessions[t].(revoked := true) else sessions[t]
  }

  function RevokeUser(sessions: map<Id, Session>, user: Id): map<Id, Session> {
    map t | t in sessions :: if sessions[t].user == user then sessions[t].(revoked := true) else sessions[t]
  }

  function RevokeTenant(sessions: map<Id, Session>, tenant: Id): map<Id, Session> {
    map t | t in sessions ::
      if InTenant(sessions[t], tenant) then sessions[t].(revoked := true) else sessions[t]
  }

  function RevokeMembers(sessions: map<Id, Session>, tenant: Id, affected: set<Id>): map<Id, Session> {
    map t | t in sessions ::
      if Through(sessions[t], tenant, affected) then sessions[t].(revoked := true) else sessions[t]
  }

  function BumpMembers(members: map<Id, Membership>, tenant: Id, affected: set<Id>): map<Id, Membership> {
    map m | m in members ::
      if members[m].tenant == tenant && m in affected then members[m].(version := members[m].version + 1) else members[m]
  }

  /** The common shape of an access change: stale versions and revoked sessions. */
  function AccessChange(w: World, tenant: Id, affected: set<Id>): World {
    w.(members := BumpMembers(w.members, tenant, affected), sessions := RevokeMembers(w.sessions, tenant, affected))
  }

  function BumpUser(w: World, user: Id): World
    requires user in w.users
  {
    w.(users := w.users[user := w.users[user].(version := w.users[user].version + 1)],
       sessions := RevokeUser(w.sessions, user))
  }

  function MembersOf(w: World, tenant: Id, users: set<Id>): set<Id> {
    set m | m in w.members && w.members[m].tenant == tenant && w.members[m].user.Some? && w.members[m].user.value in users
  }

  // ---------------------------------------------------------------------------
  // Session creation
  // ---------------------------------------------------------------------------

  /** A new session for the user, in the membership's tenant if one is given. The
      membership must be the user's and active; the tenant's own status is not read. */
  function NewSession(w: World, token: Id, user: Id, member: Option<Id>, restricted: bool, ttl: nat): Option<World> {
    if user !in w.users || token in w.sessions then None
    else if member.None? then
      Some(w.(sessions := w.sessions[token :=
        Session(user, w.users[user].version, None, restricted, w.now + ttl, false)]))
    else if member.value !in w.members then None
    else
      var m := w.members[member.value];
      if m.user != Some(user) || !m.status.Active? then None
      else
        Some(w.(sessions := w.sessions[token :=
          Session(user, w.users[user].version, Some(Context(m.tenant, member.value, m.version)), restricted,
                  w.now + ttl, false)]))
  }

  predicate InActiveTenant(w: World, member: Id) {
    member in w.members && TenantActive(w, w.members[member].tenant)
  }

  predicate Holds(w: World, user: Id, member: Id) {
    member in w.members && w.members[member].user == Some(user) && w.members[member].status.Active?
  }

  // ---------------------------------------------------------------------------
  // Steps
  // ---------------------------------------------------------------------------

  datatype Step =
    | Tick(elapsed: nat)
    | Register(user: Id)
    | Provision(tenant: Id)
    | Invite(tenant: Id, member: Id)
    | LetIn(token: Id)
    | BeginLogin(tx: Id, user: Id, chosen: Option<Id>)
    | BeginSwitch(tx: Id, token: Id, member: Id)
    | BeginAcceptance(tx: Id, member: Id, user: Id)
    | Login(tx: Id, newToken: Id, restricted: bool, ttl: nat)
    | SwitchTenant(tx: Id, newToken: Id, ttl: nat)
    | AcceptAccess(tx: Id, newToken: Id, restricted: bool, ttl: nat)
    | AcceptOwner(member: Id, user: Id, newToken: Id, ttl: nat)
    | CompleteMfa(token: Id, member: Id, newToken: Id, ttl: nat)
    | Logout(token: Id)
    | RoleChanged(tenant: Id, holders: set<Id>)
    | AccessUpdated(tenant: Id, member: Id)
    | Lifecycle(tenant: Id, member: Id, suspend: bool)
    | SessionsReset(tenant: Id, member: Id)
    | MfaReset(tenant: Id, member: Id)
    | TripReassigned(tenant: Id, users: set<Id>)
    | AudienceChanged(tenant: Id, member: Id)
    | PlatformStatus(tenant: Id, member: Id, suspend: bool)
    | PasswordReset(user: Id)
    | TenantStatus(tenant: Id, active: bool)

  predicate IsMember(w: World, tenant: Id, member: Id) {
    member in w.members && w.members[member].tenant == tenant
  }

  function SetStatus(w: World, member: Id, status: Status): World
    requires member in w.members
  {
    w.(members := w.members[member := w.members[member].(status := status)])
  }

  function Begun(w: World, tx: Id, errand: Errand): Option<World> {
    if tx in w.errands then None else Some(w.(errands := w.errands[tx := errand]))
  }

  function Ended(w: World, tx: Id): World {
    w.(errands := w.errands - {tx})
  }

  predicate CreatesSession(step: Step) {
    step.Login? || step.SwitchTenant? || step.AcceptAccess? || step.AcceptOwner? || step.CompleteMfa?
  }

  /** What a transaction has done when it comes to insert its session, and the session asked for. */
  datatype Insertion = Insertion(ground: World, user: Id, member: Option<Id>, restricted: bool, ttl: nat)

  /** The user's own session is revoked and replaced by a full one in the membership. */
  function Trade(w: World, token: Id, member: Id, ttl: nat): Insertion
    requires token in w.sessions
  {
    Insertion(w.(sessions := RevokeOne(w.sessions, token)), w.sessions[token].user, Some(member), false, ttl)
  }

  function Prepared(w: World, step: Step): Option<Insertion>
    requires CreatesSession(step)
  {
    match step
    case Login(tx, _, restricted, ttl) =>
      if tx !in w.errands || !w.errands[tx].SigningIn? then None
      else Some(Insertion(Ended(w, tx), w.errands[tx].user, w.errands[tx].chosen, restricted, ttl))
    case SwitchTenant(tx, _, ttl) =>
      if tx !in w.errands || !w.errands[tx].Switching? || w.errands[tx].token !in w.sessions then None
      else Some(Trade(Ended(w, tx), w.errands[tx].token, w.errands[tx].member, ttl))
    case AcceptAccess(tx, _, restricted, ttl) =>
      if tx !in w.errands || !w.errands[tx].Accepting? || w.errands[tx].member !in w.members then None
      else
        var Accepting(member, user) := w.errands[tx];
        var m := w.members[member].(user := Some(user), status := Active, version := w.members[member].version + 1);
        Some(Insertion(Ended(w, tx).(members := w.members[member := m]), user, Some(member), restricted, ttl))
    case AcceptOwner(member, user, _, ttl) =>
      if !InActiveTenant(w, member) || user !in w.users then None
      else
        var m := w.members[member].(user := Some(user), status := Active);
        Some(Insertion(w.(members := w.members[member := m]), user, Some(member), false, ttl))
    case CompleteMfa(token, member, _, ttl) =>
      if token !in w.requests || token !in w.sessions || w.sessions[token].context.None?
         || !IsMember(w, w.sessions[token].context.value.tenant, member) then None
      else Some(Trade(w, token, member, ttl))
  }

  /** The committed effect of a step, or None when it is refused and rolled back. */
  function Apply(w: World, step: Step): Option<World> {
    if !CreatesSession(step) then Change(w, step)
    else
      match Prepared(w, step)
      case Some(i) => NewSession(i.ground, step.newToken, i.user, i.member, i.restricted, i.ttl)
      case None => None
  }

  function Change(w: World, step: Step): Option<World>
    requires !CreatesSession(step)
  {
    match step
    case Tick(d) => Some(w.(now := w.now + d))
    case Register(user) =>
      if user in w.users then None else Some(w.(users := w.users[user := User(true, 1)]))
    case Provision(tenant) =>
      if tenant in w.tenants then None else Some(w.(tenants := w.tenants[tenant := true]))
    case Invite(tenant, member) =>
      if member in w.members || tenant !in w.tenants then None
      else Some(w.(members := w.members[member := Membership(tenant, None, Invited, 1)]))
    case LetIn(token) =>
      if Guard(w, token, true).Ok? then Some(w.(requests := w.requests + {token})) else None
    case BeginLogin(tx, user, chosen) =>
      if user !in w.users || !w.users[user].active then None
      else if chosen.Some? && !(InActiveTenant(w, chosen.value) && Holds(w, user, chosen.value)) then None
      else Begun(w, tx, SigningIn(user, chosen))
    case BeginSwitch(tx, token, member) =>
      if token !in w.requests || token !in w.sessions then None
      else if !InActiveTenant(w, member) || !Holds(w, w.sessions[token].user, member) then None
      else Begun(w, tx, Switching(token, member))
    case BeginAcceptance(tx, member, user) =>
      if !InActiveTenant(w, member) || user !in w.users || !w.users[user].active then None
      else Begun(w, tx, Accepting(member, user))
    case Logout(token) => Some(w.(sessions := RevokeOne(w.sessions, token)))
    case RoleChanged(tenant, holders) => Some(AccessChange(w, tenant, holders))
    case AccessUpdated(tenant, member) =>
      if !IsMember(w, tenant, member) then None else Some(AccessChange(w, tenant, {member}))
    case Lifecycle(tenant, member, suspend) =>
      if !IsMember(w, tenant, member) then None
      else Some(SetStatus(AccessChange(w, tenant, {member}), member, if suspend then Suspended else Active))
    case SessionsReset(tenant, member) =>
      if !IsMember(w, tenant, member) then None else Some(AccessChange(w, tenant, {member}))
    case MfaReset(tenant, member) =>
      if !IsMember(w, tenant, member) || w.members[member].user.None? || w.members[member].user.value !in w.users then None
      else Some(BumpUser(w.(members := BumpMembers(w.members, tenant, {member})), w.members[member].user.value))
    case TripReassigned(tenant, users) => Some(AccessChange(w, tenant, MembersOf(w, tenant, users)))
    case AudienceChanged(tenant, member) =>
      if !IsMember(w, tenant, member) then None else Some(AccessChange(w, tenant, {member}))
    case PlatformStatus(tenant, member, suspend) =>
      if !IsMember(w, tenant, member) then None
      else if suspend then
        if !w.members[member].status.Active? then None
        else Some(SetStatus(AccessChange(w, tenant, {member}), member, Suspended))
      else if !w.members[member].status.Suspended? || w.members[member].user.None? || !TenantActive(w, tenant) then None
      else Some(SetStatus(w.(members := BumpMembers(w.members, tenant, {member})), member, Active))
    case PasswordReset(user) =>
      if user !in w.users || !w.users[user].active then None else Some(BumpUser(w, user))
    case TenantStatus(tenant, active) =>
      if tenant !in w.tenants || w.tenants[tenant] == active then None
      else if active then Some(w.(tenants := w.tenants[tenant := true]))
      else Some(w.(tenants := w.tenants[tenant := false], sessions := RevokeTenant(w.sessions, tenant)))
  }

  /** A refused step changes nothing. */
  function After(w: World, step: Step): World {
    match Apply(w, step)
    case Some(w') => w'
    case None => w
  }

  function Run(w: World, steps: seq<Step>): World {
    if steps == [] then w else After(Run(w, steps[..|steps| - 1]), steps[|steps| - 1])
  }

  // ---------------------------------------------------------------------------
  // The invariant
  // ---------------------------------------------------------------------------

  /** Versions never run ahead of the rows they were read from, and an unrevoked session at
      the current version sits in an active membership. */
  ghost predicate SessionOk(w: World, s: Session) {
    && s.user in w.users && s.userVersion <= w.users[s.user].version
    && (s.context.Some? ==> ContextOk(w, s.context.value, s.revoked))
  }

  ghost predicate ContextOk(w: World, c: Context, revoked: bool) {
    && c.tenant in w.tenants
    && c.member in w.members && w.members[c.member].tenant == c.tenant
    && c.version <= w.members[c.member].version
    && (!revoked && c.version == w.members[c.member].version ==> w.members[c.member].status.Active?)
  }

  ghost predicate Inv(w: World) {
    && (forall m <- w.members :: w.members[m].tenant in w.tenants)
    && (forall t <- w.sessions :: SessionOk(w, w.sessions[t]))
  }

  /** What any step does to what was there: versions grow, losing an active membership
      costs a version, and sessions change only by being revoked. */
  ghost predicate Evolves(w: World, w': World) {
    && w.now <= w'.now
    && w.tenants.Keys <= w'.tenants.Keys
    && (forall u <- w.users :: u in w'.users && UserEvolves(w.users[u], w'.users[u]))
    && (forall m <- w.members :: m in w'.members && MemberEvolves(w.members[m], w'.members[m]))
    && (forall t <- w.sessions :: t in w'.sessions && SessionEvolves(w.sessions[t], w'.sessions[t]))
  }

  ghost predicate UserEvolves(u: User, u': User) {
    u'.active == u.active && u.version <= u'.version
  }

  ghost predicate MemberEvolves(m: Membership, m': Membership) {
    && m'.tenant == m.tenant && m.version <= m'.version
    && (m.status.Active? && !m'.status.Active? ==> m.version < m'.version)
  }

  ghost predicate SessionEvolves(s: Session, s': Session) {
    s' == s.(revoked := s'.revoked) && (s.revoked ==> s'.revoked)
  }

  predicate Begins(step: Step) {
    step.BeginLogin? || step.BeginSwitch? || step.BeginAcceptance?
  }

  /** The step evolves what was there, and what it adds is well placed. */
  ghost predicate Advances(w: World, w': World) {
    && Evolves(w, w')
    && (forall m <- w'.members :: w'.members[m].tenant in w'.tenants)
    && (forall t <- w'.sessions :: t !in w.sessions ==> SessionOk(w', w'.sessions[t]))
  }

  lemma RevokeOneAdvances(w: World, token: Id, errands: map<Id, Errand>)
    requires Inv(w)
    ensures Advances(w, w.(sessions := RevokeOne(w.sessions, token), errands := errands))
    ensures Advances(w, w.(errands := errands))
  {
  }

  lemma ActivationAdvances(w: World, member: Id, m: Membership, errands: map<Id, Errand>)
    requires Inv(w) && member in w.members && MemberEvolves(w.members[member], m)
    ensures Advances(w, w.(members := w.members[member := m], errands := errands))
  {
  }

  lemma PreparationAdvances(w: World, step: Step)
    requires Inv(w) && CreatesSession(step) && Prepared(w, step).Some?
    ensures Advances(w, Prepared(w, step).value.ground)
  {
    hide TenantActive, IsMember, Inv, Advances, RevokeOne;
    match step
    case Login(tx, _, _, _) => RevokeOneAdvances(w, 0, w.errands - {tx});
    case SwitchTenant(tx, _, _) => RevokeOneAdvances(w, w.errands[tx].token, w.errands - {tx});
    case AcceptAccess(tx, _, _, _) =>
      var Accepting(member, user) := w.errands[tx];
      var m := w.members[member].(user := Some(user), status := Active, version := w.members[member].version + 1);
      ActivationAdvances(w, member, m, w.errands - {tx});
    case AcceptOwner(member, user, _, _) =>
      ActivationAdvances(w, member, w.members[member].(user := Some(user), status := Active), w.errands);
    case CompleteMfa(token, _, _, _) => RevokeOneAdvances(w, token, w.errands);
  }

  lemma InsertAdvances(w: World, w0: World, token: Id, user: Id, member: Option<Id>, restricted: bool, ttl: nat)
    requires Inv(w) && Advances(w, w0) && NewSession(w0, token, user, member, restricted, ttl).Some?
    ensures Advances(w, NewSession(w0, token, user, member, restricted, ttl).value)
  {
  }

  lemma CreationAdvances(w: World, step: Step)
    requires Inv(w) && CreatesSession(step)
    ensures Advances(w, After(w, step))
  {
    hide Inv, Advances, Prepared, NewSession;
    Unmoved(w);
    if Apply(w, step).Some? {
      var i := Prepared(w, step).value;
      PreparationAdvances(w, step);
      InsertAdvances(w, i.ground, step.newToken, i.user, i.member, i.restricted, i.ttl);
    }
  }

  lemma AccessChangeAdvances(w: World, tenant: Id, affected: set<Id>)
    requires Inv(w)
    ensures Advances(w, AccessChange(w, tenant, affected))
  {
  }

  /** A status may change in the same transaction, because the version does. */
  lemma StatusChangeAdvances(w: World, tenant: Id, member: Id, revoke: bool, status: Status)
    requires Inv(w) && IsMember(w, tenant, member) && (status.Active? || revoke)
    ensures var w' := if revoke then AccessChange(w, tenant, {member})
                      else w.(members := BumpMembers(w.members, tenant, {member}));
            Advances(w, SetStatus(w', member, status))
  {
  }

  lemma UserBumpAdvances(w: World, user: Id, members: map<Id, Membership>)
    requires Inv(w) && user in w.users && Advances(w, w.(members := members))
    ensures Advances(w, BumpUser(w.(members := members), user))
  {
  }

  lemma MemberBumpAdvances(w: World, tenant: Id, affected: set<Id>)
    requires Inv(w)
    ensures Advances(w, w.(members := BumpMembers(w.members, tenant, affected)))
  {
  }

  lemma ArrivalAdvances(w: World, step: Step)
    requires Inv(w) && (step.Tick? || step.Register? || step.LetIn?)
    ensures Advances(w, After(w, step))
  {
    hide Guard, NewSession, Begun, AccessChange, SetStatus, BumpUser, BumpMembers, MembersOf, InActiveTenant, Holds;
  }

  lemma AdditionAdvances(w: World, step: Step)
    requires Inv(w) && (step.Provision? || step.Invite?)
    ensures Advances(w, After(w, step))
  {
    hide Guard, NewSession, Begun, AccessChange, SetStatus, BumpUser, BumpMembers, MembersOf, InActiveTenant, Holds;
  }

  lemma BeginAdvances(w: World, step: Step)
    requires Inv(w) && Begins(step)
    ensures Advances(w, After(w, step))
  {
    hide Guard, NewSession, AccessChange, SetStatus, BumpUser, BumpMembers, MembersOf, InActiveTenant, Holds;
  }

  lemma TenantStatusAdvances(w: World, tenant: Id, active: bool)
    requires Inv(w) && tenant in w.tenants
    ensures Advances(w, w.(tenants := w.tenants[tenant := active]))
    ensures Advances(w, w.(tenants := w.tenants[tenant := active], sessions := RevokeTenant(w.sessions, tenant)))
  {
  }

  lemma ChangeAdvances(w: World, step: Step)
    requires Inv(w) && !CreatesSession(step)
    ensures Advances(w, After(w, step))
  {
    hide Guard, NewSession, Begun, InActiveTenant, Holds, Advances, Inv, AccessChange, SetStatus, BumpUser, BumpMembers, MembersOf;
    match step
    case RoleChanged(tenant, holders) => AccessChangeAdvances(w, tenant, holders);
    case AccessUpdated(tenant, member) => AccessChangeAdvances(w, tenant, {member}); Unmoved(w);
    case SessionsReset(tenant, member) => AccessChangeAdvances(w, tenant, {member}); Unmoved(w);
    case AudienceChanged(tenant, member) => AccessChangeAdvances(w, tenant, {member}); Unmoved(w);
    case TripReassigned(tenant, users) => AccessChangeAdvances(w, tenant, MembersOf(w, tenant, users));
    case Lifecycle(tenant, member, suspend) =>
      Unmoved(w);
      if IsMember(w, tenant, member) {
        StatusChangeAdvances(w, tenant, member, true, if suspend then Suspended else Active);
      }
    case PlatformStatus(tenant, member, suspend) =>
      Unmoved(w);
      if IsMember(w, tenant, member) {
        StatusChangeAdvances(w, tenant, member, suspend, if suspend then Suspended else Active);
      }
    case MfaReset(tenant, member) =>
      Unmoved(w);
      if IsMember(w, tenant, member) && w.members[member].user.Some? && w.members[member].user.value in w.users {
        MemberBumpAdvances(w, tenant, {member});
        UserBumpAdvances(w, w.members[member].user.value, BumpMembers(w.members, tenant, {member}));
      }
    case Logout(token) => RevokeOneAdvances(w, token, w.errands);
    case TenantStatus(tenant, active) =>
      Unmoved(w);
      if tenant in w.tenants { TenantStatusAdvances(w, tenant, active); }
    case PasswordReset(user) =>
      Unmoved(w);
      if user in w.users { UserBumpAdvances(w, user, w.members); }
    case Provision(_) => AdditionAdvances(w, step);
    case Invite(_, _) => AdditionAdvances(w, step);
    case _ => if Begins(step) { BeginAdvances(w, step); } else { ArrivalAdvances(w, step); }
  }

  lemma Unmoved(w: World)
    requires Inv(w)
    ensures Advances(w, w)
  {
  }

  lemma StepEvolves(w: World, step: Step)
    requires Inv(w)
    ensures Advances(w, After(w, step))
  {
    hide Inv, Advances, After;
    if CreatesSession(step) {
      CreationAdvances(w, step);
    } else {
      ChangeAdvances(w, step);
    }
  }

  lemma EvolutionKeepsSessionOk(w: World, w': World, t: Id)
    requires Evolves(w, w') && t in w.sessions && SessionOk(w, w.sessions[t])
    ensures SessionOk(w', w'.sessions[t])
  {
  }

  lemma StepKeepsInv(w: World, step: Step)
    requires Inv(w)
    ensures Inv(After(w, step))
  {
    hide SessionOk, After, Evolves;
    StepEvolves(w, step);
    var w' := After(w, step);
    forall t | t in w'.sessions ensures SessionOk(w', w'.sessions[t]) {
      if t in w.sessions {
        EvolutionKeepsSessionOk(w, w', t);
      }
    }
  }

  lemma {:induction false} RunKeepsInv(w: World, steps: seq<Step>)
    requires Inv(w)
    ensures Inv(Run(w, steps))
  {
    if steps != [] {
      RunKeepsInv(w, steps[..|steps| - 1]);
      StepKeepsInv(Run(w, steps[..|steps| - 1]), steps[|steps| - 1]);
    }
  }

  // ---------------------------------------------------------------------------
  // Refusal
  // ---------------------------------------------------------------------------

  /** The session is over: what ended it cannot be taken back. */
  ghost predicate Dead(w: World, token: Id)
    requires token in w.sessions
  {
    var s := w.sessions[token];
    || s.revoked || s.expires <= w.now
    || s.user !in w.users || !w.users[s.user].active || s.userVersion < w.users[s.user].version
    || (s.context.Some? && s.context.value.member in w.members
        && s.context.value.version < w.members[s.context.value.member].version)
  }

  /** Refused only because its tenant is inactive. */
  ghost predicate Dormant(w: World, token: Id)
    requires token in w.sessions
  {
    !Dead(w, token) && w.sessions[token].context.Some? && !TenantActive(w, w.sessions[token].context.value.tenant)
  }

  predicate Refused(w: World, token: Id) {
    Guard(w, token, true).Err?
  }

  /** The guard refuses exactly the dead and the dormant. */
  lemma RefusedMeansDeadOrDormant(w: World, token: Id)
    requires Inv(w) && token in w.sessions
    ensures Refused(w, token) <==> Dead(w, token) || Dormant(w, token)
    ensures Guard(w, token, false).Err? <==> Refused(w, token) || w.sessions[token].restricted
  {
  }

  lemma DeathIsFinal(w: World, w': World, token: Id)
    requires Evolves(w, w') && token in w.sessions && SessionOk(w, w.sessions[token]) && Dead(w, token)
    ensures Dead(w', token)
  {
  }

  lemma {:induction false} DeadStaysRefused(w: World, steps: seq<Step>, token: Id)
    requires Inv(w) && token in w.sessions && Dead(w, token)
    ensures token in Run(w, steps).sessions && Dead(Run(w, steps), token) && Refused(Run(w, steps), token)
  {
    hide Dead, Refused, Inv;
    RunKeepsInv(w, steps);
    if steps == [] {
      RefusedMeansDeadOrDormant(w, token);
    } else {
      var front := Run(w, steps[..|steps| - 1]);
      DeadStaysRefused(w, steps[..|steps| - 1], token);
      RunKeepsInv(w, steps[..|steps| - 1]);
      StepEvolves(front, steps[|steps| - 1]);
      assert SessionOk(front, front.sessions[token]) by { InvOf(front, token); }
      DeathIsFinal(front, Run(w, steps), token);
      RefusedMeansDeadOrDormant(Run(w, steps), token);
    }
  }

  lemma InvOf(w: World, token: Id)
    requires Inv(w) && token in w.sessions
    ensures SessionOk(w, w.sessions[token])
  {
  }

  /** Once refused, refused after every run, exactly when the session is dead: the one
      refusal that can be undone is the dormant one, by reactivating the tenant. */
  lemma RefusalIsPermanentIffDead(w: World, token: Id)
    requires Inv(w) && token in w.sessions && Refused(w, token)
    ensures (forall steps: seq<Step> :: Refused(Run(w, steps), token)) <==> Dead(w, token)
    ensures Dead(w, token) <==> !Dormant(w, token)
  {
    hide Run;
    RefusedMeansDeadOrDormant(w, token);
    if Dead(w, token) {
      forall steps: seq<Step> ensures Refused(Run(w, steps), token) {
        DeadStaysRefused(w, steps, token);
      }
    } else {
      var wake := [TenantStatus(w.sessions[token].context.value.tenant, true)];
      WakingWakes(w, token);
      assert !Refused(Run(w, wake), token);
    }
  }

  lemma WakingWakes(w: World, token: Id)
    requires Inv(w) && token in w.sessions && Dormant(w, token)
    ensures !Refused(Run(w, [TenantStatus(w.sessions[token].context.value.tenant, true)]), token)
  {
  }

  // ---------------------------------------------------------------------------
  // Where dormant sessions come from
  // ---------------------------------------------------------------------------

  ghost predicate NoneDormant(w: World) {
    forall t <- w.sessions :: !Dormant(w, t)
  }

  /** The membership a session-creating step opens its session in. */
  function Destination(w: World, step: Step): Option<Id> {
    if CreatesSession(step) && Prepared(w, step).Some? then Prepared(w, step).value.member else None
  }

  /** If the step inserts a session in a tenant, the tenant is active at that moment. */
  predicate TenantStillActive(w: World, step: Step) {
    Apply(w, step).Some? && Destination(w, step).Some? ==> InActiveTenant(w, Destination(w, step).value)
  }

  /** Tenants stay as they are, and rows keep their keys and their tenants. */
  ghost predicate KeepsRows(w: World, w0: World) {
    && w0.tenants == w.tenants && w0.sessions.Keys == w.sessions.Keys && w0.members.Keys == w.members.Keys
    && (forall m <- w.members :: w0.members[m].tenant == w.members[m].tenant)
  }

  lemma PreparationKeeps(w: World, step: Step)
    requires CreatesSession(step) && Prepared(w, step).Some?
    ensures KeepsRows(w, Prepared(w, step).value.ground)
  {
    hide TenantActive, IsMember;
  }

  lemma BornIn(w: World, w0: World, token: Id, user: Id, member: Option<Id>, restricted: bool, ttl: nat)
    requires NewSession(w0, token, user, member, restricted, ttl).Some?
    requires KeepsRows(w, w0)
    ensures var w' := NewSession(w0, token, user, member, restricted, ttl).value;
            && w'.sessions.Keys == w.sessions.Keys + {token}
            && (Dormant(w', token) <==> member.Some? && !InActiveTenant(w, member.value) && !Dead(w', token))
  {
    hide Dead;
  }

  lemma OnlyCreatorsCreate(w: World, step: Step)
    requires !CreatesSession(step)
    ensures After(w, step).sessions.Keys == w.sessions.Keys
  {
    hide Guard, NewSession, Holds, InActiveTenant, Prepared, BumpMembers, MembersOf, IsMember;
  }

  /** A session is born dormant exactly when it is inserted, not over already, in a tenant
      that has become inactive. */
  lemma BornDormantIff(w: World, step: Step, t: Id)
    requires Inv(w) && t in After(w, step).sessions && t !in w.sessions
    ensures Dormant(After(w, step), t) <==> !TenantStillActive(w, step) && !Dead(After(w, step), t)
    ensures step.AcceptOwner? ==> TenantStillActive(w, step)
  {
    hide Inv, Dead, Dormant, Change, InActiveTenant, NewSession, Prepared;
    if CreatesSession(step) {
      var i := Prepared(w, step).value;
      PreparationKeeps(w, step);
      BornIn(w, i.ground, step.newToken, i.user, i.member, i.restricted, i.ttl);
      if step.AcceptOwner? { OwnersTenantIsActive(w, step); }
    } else {
      OnlyCreatorsCreate(w, step);
    }
  }

  lemma OwnersTenantIsActive(w: World, step: Step)
    requires step.AcceptOwner? && Prepared(w, step).Some?
    ensures InActiveTenant(w, Prepared(w, step).value.member.value)
  {
  }

  /** Only its own deactivation makes a tenant inactive, and that revokes its sessions. */
  lemma StaysAwake(w: World, step: Step, t: Id)
    requires Inv(w) && t in w.sessions && !Dormant(w, t) && t in After(w, step).sessions
    requires SessionEvolves(w.sessions[t], After(w, step).sessions[t])
    requires Dead(w, t) ==> Dead(After(w, step), t)
    ensures !Dormant(After(w, step), t)
  {
    hide Guard, Inv, NewSession, BumpMembers;
    if CreatesSession(step) {
      TenantsKept(w, step);
    }
  }

  lemma TenantsKept(w: World, step: Step)
    requires CreatesSession(step)
    ensures After(w, step).tenants == w.tenants
  {
    hide Prepared, Change;
    if Prepared(w, step).Some? { PreparationKeeps(w, step); }
  }

  lemma StepKeepsAwake(w: World, step: Step)
    requires Inv(w) && NoneDormant(w) && TenantStillActive(w, step)
    ensures NoneDormant(After(w, step))
  {
    hide Dead, SessionOk, After, TenantStillActive, Dormant;
    var w' := After(w, step);
    StepEvolves(w, step);
    forall t | t in w'.sessions ensures !Dormant(w', t) {
      if t in w.sessions {
        if Dead(w, t) { DeathIsFinal(w, w', t); }
        StaysAwake(w, step, t);
      } else {
        BornDormantIff(w, step, t);
      }
    }
  }

  /** While every session is inserted in a tenant that is active at that moment, every
      refusal of an existing session is final. */
  lemma {:induction false} RefusalIsPermanent(w: World, before: seq<Step>, steps: seq<Step>, token: Id)
    requires Inv(w) && NoneDormant(w) && TenantsStillActive(w, before)
    requires token in Run(w, before).sessions && Refused(Run(w, before), token)
    ensures Refused(Run(Run(w, before), steps), token)
  {
    RunKeepsInv(w, before);
    RunKeepsAwake(w, before);
    RefusedMeansDeadOrDormant(Run(w, before), token);
    DeadStaysRefused(Run(w, before), steps, token);
  }

  ghost predicate TenantsStillActive(w: World, steps: seq<Step>) {
    forall i :: 0 <= i < |steps| ==> TenantStillActive(Run(w, steps[..i]), steps[i])
  }

  lemma {:induction false} RunKeepsAwake(w: World, steps: seq<Step>)
    requires Inv(w) && NoneDormant(w) && TenantsStillActive(w, steps)
    ensures NoneDormant(Run(w, steps))
  {
    hide Inv, NoneDormant, TenantStillActive;
    if steps != [] {
      var front := steps[..|steps| - 1];
      forall i | 0 <= i < |front| ensures TenantStillActive(Run(w, front[..i]), front[i]) {
        assert front[..i] == steps[..i];
      }
      RunKeepsAwake(w, front);
      RunKeepsInv(w, front);
      StepKeepsAwake(Run(w, front), steps[|front|]);
    }
  }

  /** The condition is needed wherever the tenant is not locked. Deactivate the tenant
      before any such insert, in any state: the insert still commits, the session is refused,
      and reactivating the tenant makes the guard accept it. Accepting an owner's invitation
      locks the tenant, and is refused instead. */
  lemma DeactivationIsOutlived(w: World, step: Step)
    requires Inv(w) && CreatesSession(step) && Apply(w, step).Some? && Destination(w, step).Some?
    requires InActiveTenant(w, Destination(w, step).value) && !Refused(After(w, step), step.newToken)
    ensures var tenant := w.members[Destination(w, step).value].tenant;
            var off := After(w, TenantStatus(tenant, false));
            if step.AcceptOwner? then Apply(off, step).None?
            else
              && Apply(off, step).Some? && step.newToken in After(off, step).sessions
              && Refused(After(off, step), step.newToken)
              && !Refused(After(After(off, step), TenantStatus(tenant, true)), step.newToken)
  {
    hide Inv, Guard, Destination, Apply;
    var w', member := After(w, step), Destination(w, step).value;
    var tenant := w.members[member].tenant;
    var off := Deactivated(w, tenant);
    TenantStatusTurns(w, tenant, false);
    InsertReadsNoTenant(w, off, step);
    if !step.AcceptOwner? {
      var born := After(off, step);
      TenantStatusTurns(born, tenant, true);
      SleepsAndWakes(w', born, step.newToken, tenant);
    }
  }

  function Deactivated(w: World, tenant: Id): World {
    w.(tenants := w.tenants[tenant := false], sessions := RevokeTenant(w.sessions, tenant))
  }

  lemma TenantStatusTurns(w: World, tenant: Id, active: bool)
    requires tenant in w.tenants && w.tenants[tenant] != active
    ensures After(w, TenantStatus(tenant, active))
         == if active then w.(tenants := w.tenants[tenant := true]) else Deactivated(w, tenant)
  {
    hide AccessChange, SetStatus, BumpUser, BumpMembers, MembersOf, Holds, Begun, NewSession, Guard, Prepared;
  }

  /** What the insert depends on is what a deactivation leaves alone. */
  lemma InsertReadsNoTenant(w: World, off: World, step: Step)
    requires CreatesSession(step) && Apply(w, step).Some? && Destination(w, step).Some?
    requires InActiveTenant(w, Destination(w, step).value)
    requires off == Deactivated(w, w.members[Destination(w, step).value].tenant)
    ensures if step.AcceptOwner? then Apply(off, step).None?
            else
              && Apply(off, step).Some? && After(off, step).tenants == off.tenants
              && SameInsert(After(w, step), After(off, step), step.newToken)
              && Opens(After(w, step), step.newToken, w.members[Destination(w, step).value].tenant)
  {
    hide Inv, NewSession, InActiveTenant, Prepared, Change, SameInsert, Opens;
    PreparationReadsNoTenant(w, off, step);
    PreparationKeeps(w, step);
    if !step.AcceptOwner? {
      PreparationKeeps(off, step);
      var i, o := Prepared(w, step).value, Prepared(off, step).value;
      InsertIsAlike(i.ground, o.ground, step.newToken, i.user, i.member, i.restricted, i.ttl);
    }
  }

  lemma PreparationReadsNoTenant(w: World, off: World, step: Step)
    requires CreatesSession(step) && Prepared(w, step).Some? && Prepared(w, step).value.member.Some?
    requires InActiveTenant(w, Prepared(w, step).value.member.value)
    requires off == Deactivated(w, w.members[Prepared(w, step).value.member.value].tenant)
    ensures if step.AcceptOwner? then Prepared(off, step).None?
            else
              && Prepared(off, step).Some? && Alike(Prepared(w, step).value.ground, Prepared(off, step).value.ground)
              && Prepared(off, step).value == Prepared(w, step).value.(ground := Prepared(off, step).value.ground)
  {
  }

  ghost predicate Alike(w: World, off: World) {
    off.now == w.now && off.users == w.users && off.members == w.members && off.sessions.Keys == w.sessions.Keys
  }

  lemma InsertIsAlike(w: World, off: World, token: Id, user: Id, member: Option<Id>, restricted: bool, ttl: nat)
    requires Alike(w, off) && NewSession(w, token, user, member, restricted, ttl).Some?
    ensures NewSession(off, token, user, member, restricted, ttl).Some?
    ensures var w' := NewSession(w, token, user, member, restricted, ttl).value;
            var off' := NewSession(off, token, user, member, restricted, ttl).value;
            && SameInsert(w', off', token) && off'.tenants == off.tenants
            && (member.Some? ==> member.value in w.members && Opens(w', token, w.members[member.value].tenant))
  {
  }

  ghost predicate Opens(w: World, token: Id, tenant: Id) {
    token in w.sessions && InTenant(w.sessions[token], tenant)
  }

  ghost predicate SameInsert(w: World, born: World, token: Id) {
    && born.now == w.now && born.users == w.users && born.members == w.members
    && token in w.sessions && token in born.sessions && born.sessions[token] == w.sessions[token]
  }

  lemma SleepsAndWakes(w: World, born: World, token: Id, tenant: Id)
    requires SameInsert(w, born, token) && Opens(w, token, tenant) && !Refused(w, token)
    requires tenant in born.tenants && !born.tenants[tenant]
    ensures Refused(born, token) && !Refused(born.(tenants := born.tenants[tenant := true]), token)
  {
  }

  // ---------------------------------------------------------------------------
  // What a change does to the verdict on each session
  // ---------------------------------------------------------------------------

  ghost predicate SameVerdict(w: World, w': World, token: Id) {
    forall allowRestricted :: Guard(w', token, allowRestricted) == Guard(w, token, allowRestricted)
  }

  /** The sessions named are over and refused, and the guard judges every other one as before. */
  ghost predicate EndsExactly(w: World, w': World, ended: set<Id>) {
    && w'.sessions.Keys == w.sessions.Keys
    && (forall t <- w.sessions :: if t in ended then Dead(w', t) && Refused(w', t) else SameVerdict(w, w', t))
  }

  function SessionsOf(w: World, user: Id): set<Id> {
    set t | t in w.sessions && w.sessions[t].user == user
  }

  function SessionsIn(w: World, tenant: Id): set<Id> {
    set t | t in w.sessions && InTenant(w.sessions[t], tenant)
  }

  function SessionsThrough(w: World, tenant: Id, affected: set<Id>): set<Id> {
    set t | t in w.sessions && Through(w.sessions[t], tenant, affected)
  }

  /** A new session is accepted exactly when it has time to live and its user and tenant are
      active, and no other session is judged differently. */
  lemma NewSessionIsAcceptedIff(w: World, token: Id, user: Id, member: Option<Id>, restricted: bool, ttl: nat)
    requires NewSession(w, token, user, member, restricted, ttl).Some?
    ensures var w' := NewSession(w, token, user, member, restricted, ttl).value;
            && w'.sessions.Keys == w.sessions.Keys + {token}
            && (!Refused(w', token) <==> ttl > 0 && w.users[user].active && (member.Some? ==> InActiveTenant(w, member.value)))
            && (Guard(w', token, false).Ok? <==> !Refused(w', token) && !restricted)
            && (forall t <- w.sessions :: SameVerdict(w, w', t))
  {
  }

  lemma AccessChangeEndsExactly(w: World, tenant: Id, affected: set<Id>)
    ensures EndsExactly(w, AccessChange(w, tenant, affected), SessionsThrough(w, tenant, affected))
  {
  }

  lemma UserBumpEndsExactly(w: World, user: Id)
    requires user in w.users
    ensures EndsExactly(w, BumpUser(w, user), SessionsOf(w, user))
  {
  }

  lemma MfaResetBumps(w: World, tenant: Id, member: Id)
    requires Apply(w, MfaReset(tenant, member)).Some?
    ensures IsMember(w, tenant, member) && w.members[member].user.Some? && w.members[member].user.value in w.users
    ensures After(w, MfaReset(tenant, member))
         == BumpUser(w.(members := BumpMembers(w.members, tenant, {member})), w.members[member].user.value)
  {
    hide Prepared, NewSession, AccessChange, SetStatus, BumpUser, BumpMembers, Holds, InActiveTenant, Begun, Guard;
  }

  /** Resetting a member's factors also ends what other users have open through the member. */
  lemma MfaResetEndsExactly(w: World, tenant: Id, member: Id)
    requires Inv(w) && Apply(w, MfaReset(tenant, member)).Some?
    ensures EndsExactly(w, After(w, MfaReset(tenant, member)),
                        SessionsOf(w, w.members[member].user.value) + SessionsThrough(w, tenant, {member}))
  {
    hide Apply;
    MfaResetBumps(w, tenant, member);
    assert forall t <- w.sessions :: SessionOk(w, w.sessions[t]);
  }

  lemma DeactivationEndsExactly(w: World, tenant: Id)
    requires Apply(w, TenantStatus(tenant, false)).Some?
    ensures EndsExactly(w, After(w, TenantStatus(tenant, false)), SessionsIn(w, tenant))
  {
  }

  /** Reactivation wakes the tenant's dormant sessions, and does nothing else. */
  lemma ReactivationWakesExactly(w: World, tenant: Id)
    requires Inv(w) && Apply(w, TenantStatus(tenant, true)).Some?
    ensures var w' := After(w, TenantStatus(tenant, true));
            forall t <- w.sessions ::
              if InTenant(w.sessions[t], tenant) && Dormant(w, t) then !Refused(w', t) else SameVerdict(w, w', t)
  {
    hide NewSession, Prepared, AccessChange, SetStatus, MembersOf, InActiveTenant, Holds, Begun;
    assert forall t <- w.sessions :: SessionOk(w, w.sessions[t]);
  }

  // ---------------------------------------------------------------------------
  // No session outlives an access change
  // ---------------------------------------------------------------------------

  ghost predicate TouchesMember(w: World, step: Step, tenant: Id, member: Id) {
    match step
    case RoleChanged(t, holders) => t == tenant && member in holders
    case AccessUpdated(t, m) => t == tenant && m == member
    case Lifecycle(t, m, _) => t == tenant && m == member
    case SessionsReset(t, m) => t == tenant && m == member
    case MfaReset(t, m) => t == tenant && m == member
    case TripReassigned(t, users) =>
      t == tenant && member in w.members && w.members[member].user.Some? && w.members[member].user.value in users
    case AudienceChanged(t, m) => t == tenant && m == member
    case PlatformStatus(t, m, _) => t == tenant && m == member
    case AcceptAccess(_, _, _, _) => Destination(w, step) == Some(member)
    case _ => false
  }

  ghost predicate TouchesUser(w: World, step: Step, user: Id) {
    match step
    case PasswordReset(u) => u == user
    case MfaReset(t, m) => m in w.members && w.members[m].user == Some(user)
    case _ => false
  }

  /** The step commits and changes the access of the session's membership or user. */
  ghost predicate Touches(w: World, step: Step, s: Session) {
    && Apply(w, step).Some?
    && (|| TouchesUser(w, step, s.user)
        || (s.context.Some? && TouchesMember(w, step, s.context.value.tenant, s.context.value.member)))
  }

  /** A touch ends a session twice over: its versions are out of date, and it is revoked, except
      where a suspended or invited membership becomes active. */
  lemma TouchedIsStaleAndRevoked(w: World, step: Step, token: Id)
    requires Inv(w) && token in w.sessions && Touches(w, step, w.sessions[token])
    ensures var w', s := After(w, step), w.sessions[token];
            && token in w'.sessions
            && (|| (s.user in w'.users && s.userVersion < w'.users[s.user].version)
                || (s.context.Some? && s.context.value.member in w'.members
                    && s.context.value.version < w'.members[s.context.value.member].version))
            && (w'.sessions[token].revoked || step.AcceptAccess? || (step.PlatformStatus? && !step.suspend)
                || (step.MfaReset? && !TouchesUser(w, step, s.user)))
  {
    hide Guard, Begun, InActiveTenant, Holds, Inv;
    InvOf(w, token);
  }

  lemma TouchEnds(w: World, step: Step, token: Id)
    requires Inv(w) && token in w.sessions && Touches(w, step, w.sessions[token])
    ensures token in After(w, step).sessions && Dead(After(w, step), token)
  {
    hide After, Touches, Inv;
    TouchedIsStaleAndRevoked(w, step, token);
    StepEvolves(w, step);
  }

  /** A session the guard accepts has not been touched since any point of the run at which
      it existed; in particular not since it was created. */
  lemma AcceptedMeansUntouched(w: World, steps: seq<Step>, k: nat, token: Id)
    requires Inv(w) && k < |steps|
    requires token in Run(w, steps[..k]).sessions
    requires !Refused(Run(w, steps), token)
    ensures !Touches(Run(w, steps[..k]), steps[k], Run(w, steps[..k]).sessions[token])
  {
    hide Inv, Touches, Refused, Dead, SessionOk, Run, After;
    var at := Run(w, steps[..k]);
    RunKeepsInv(w, steps[..k]);
    if Touches(at, steps[k], at.sessions[token]) {
      assert steps[..k + 1] + steps[k + 1..] == steps;
      RunAppends(w, steps[..k + 1], steps[k + 1..]);
      RunOneMore(w, steps, k);
      RunKeepsInv(w, steps[..k + 1]);
      TouchEnds(at, steps[k], token);
      DeadStaysRefused(Run(w, steps[..k + 1]), steps[k + 1..], token);
    }
  }

  lemma RunOneMore(w: World, steps: seq<Step>, k: nat)
    requires k < |steps|
    ensures Run(w, steps[..k + 1]) == After(Run(w, steps[..k]), steps[k])
  {
    hide After;
    assert steps[..k + 1][..k] == steps[..k];
  }

  lemma {:induction false} RunAppends(w: World, a: seq<Step>, b: seq<Step>)
    ensures Run(w, a + b) == Run(Run(w, a), b)
  {
    if b == [] {
      assert a + b == a;
    } else {
      RunAppends(w, a, b[..|b| - 1]);
      assert (a + b)[..|a + b| - 1] == a + b[..|b| - 1];
    }
  }

  // ---------------------------------------------------------------------------
  // What a session lives through
  // ---------------------------------------------------------------------------

  /** The step touches the session, lets it expire, logs it out, trades it for another, or
      deactivates its tenant. */
  ghost predicate Ends(w: World, step: Step, token: Id)
    requires token in w.sessions
  {
    var s := w.sessions[token];
    || Touches(w, step, s)
    || (match step
        case Tick(d) => s.expires <= w.now + d
        case Logout(t) => t == token
        case TenantStatus(tenant, active) => !active && Apply(w, step).Some? && InTenant(s, tenant)
        case SwitchTenant(tx, _, _) => Apply(w, step).Some? && w.errands[tx].token == token
        case CompleteMfa(t, _, _, _) => Apply(w, step).Some? && t == token
        case _ => false)
  }

  lemma CreationEndsIff(w: World, step: Step, token: Id)
    requires Inv(w) && CreatesSession(step) && Apply(w, step).Some? && token in w.sessions && !Refused(w, token)
    ensures token in After(w, step).sessions && (Refused(After(w, step), token) <==> Ends(w, step, token))
  {
    hide NewSession, Inv, Change;
    var i := Prepared(w, step).value;
    NewSessionIsAcceptedIff(i.ground, step.newToken, i.user, i.member, i.restricted, i.ttl);
    InvOf(w, token);
    assert token in i.ground.sessions && SameVerdict(i.ground, After(w, step), token);
  }

  predicate ChangesAccess(step: Step) {
    step.RoleChanged? || step.AccessUpdated? || step.SessionsReset? || step.TripReassigned? || step.AudienceChanged?
  }

  predicate ChangesStatus(step: Step) {
    step.Lifecycle? || step.PlatformStatus?
  }

  lemma StatusChangeEndsIff(w: World, step: Step, token: Id)
    requires Inv(w) && ChangesStatus(step) && Apply(w, step).Some? && token in w.sessions && !Refused(w, token)
    ensures token in After(w, step).sessions && (Refused(After(w, step), token) <==> Ends(w, step, token))
  {
    hide Inv, Prepared, NewSession, Holds, InActiveTenant, Begun, BumpUser, MembersOf;
    InvOf(w, token);
  }

  lemma AccessChangeEndsIff(w: World, step: Step, token: Id)
    requires Inv(w) && ChangesAccess(step) && Apply(w, step).Some? && token in w.sessions && !Refused(w, token)
    ensures token in After(w, step).sessions && (Refused(After(w, step), token) <==> Ends(w, step, token))
  {
    hide Inv, Prepared, NewSession, Holds, InActiveTenant, Begun, BumpUser, SetStatus, AccessChange, Guard;
    match step
    case RoleChanged(tenant, holders) => AccessChangeEndsExactly(w, tenant, holders);
    case AccessUpdated(tenant, member) => AccessChangeEndsExactly(w, tenant, {member});
    case SessionsReset(tenant, member) => AccessChangeEndsExactly(w, tenant, {member});
    case AudienceChanged(tenant, member) => AccessChangeEndsExactly(w, tenant, {member});
    case TripReassigned(tenant, users) =>
      if w.sessions[token].context.Some? { AcceptedIsCurrent(w, token); }
      AccessChangeEndsExactly(w, tenant, MembersOf(w, tenant, users));
  }

  lemma AcceptedIsCurrent(w: World, token: Id)
    requires token in w.sessions && !Refused(w, token) && w.sessions[token].context.Some?
    ensures MemberCurrent(w, w.sessions[token].context.value)
  {
  }

  lemma OtherChangeEndsIff(w: World, step: Step, token: Id)
    requires Inv(w) && !CreatesSession(step) && !ChangesAccess(step) && !ChangesStatus(step)
    requires Apply(w, step).Some? && token in w.sessions && !Refused(w, token)
    ensures token in After(w, step).sessions && (Refused(After(w, step), token) <==> Ends(w, step, token))
  {
    hide Inv, Prepared, NewSession, Holds, InActiveTenant, AccessChange, SetStatus, MembersOf;
    InvOf(w, token);
  }

  /** A step makes the guard refuse an accepted session exactly when it ends it. */
  lemma RefusedNextIffEnded(w: World, step: Step, token: Id)
    requires Inv(w) && token in w.sessions && !Refused(w, token)
    ensures token in After(w, step).sessions && (Refused(After(w, step), token) <==> Ends(w, step, token))
  {
    hide Inv, Ends, Apply;
    if Apply(w, step).None? {
      NothingEnds(w, step, token);
    } else if CreatesSession(step) {
      CreationEndsIff(w, step, token);
    } else if ChangesStatus(step) {
      StatusChangeEndsIff(w, step, token);
    } else if ChangesAccess(step) {
      AccessChangeEndsIff(w, step, token);
    } else {
      OtherChangeEndsIff(w, step, token);
    }
  }

  lemma NothingEnds(w: World, step: Step, token: Id)
    requires token in w.sessions && Apply(w, step).None?
    ensures !Ends(w, step, token)
  {
    hide Prepared;
  }

  ghost predicate EndsAt(w: World, steps: seq<Step>, k: nat, token: Id)
    requires k < |steps|
  {
    token in Run(w, steps[..k]).sessions && Ends(Run(w, steps[..k]), steps[k], token)
  }

  /** A step that ends an accepted session ends it for good. */
  lemma EndedNextIsDead(w: World, step: Step, token: Id)
    requires Inv(w) && token in w.sessions && !Refused(w, token)
    ensures token in After(w, step).sessions && (Dead(After(w, step), token) <==> Ends(w, step, token))
  {
    hide Inv, Refused, Ends, Dead, After, SessionOk;
    StepEvolves(w, step);
    StepKeepsInv(w, step);
    RefusedNextIffEnded(w, step, token);
    RefusedMeansDeadOrDormant(w, token);
    RefusedMeansDeadOrDormant(After(w, step), token);
    StaysAwake(w, step, token);
  }

  /** From a point where the guard accepts it, a session is accepted after a run exactly when
      no step of the run has ended it, and otherwise it is over. */
  lemma {:induction false} AcceptedIffNothingEnded(w: World, steps: seq<Step>, token: Id)
    requires Inv(w) && token in w.sessions && !Refused(w, token)
    ensures token in Run(w, steps).sessions && (Refused(Run(w, steps), token) <==> Dead(Run(w, steps), token))
    ensures !Refused(Run(w, steps), token) <==> forall k :: 0 <= k < |steps| ==> !EndsAt(w, steps, k, token)
  {
    hide Inv, Refused, Ends, Dead, After;
    if steps == [] {
      RefusedMeansDeadOrDormant(w, token);
    } else {
      var n := |steps| - 1;
      var front := steps[..n];
      forall k | 0 <= k < n ensures EndsAt(w, steps, k, token) == EndsAt(w, front, k, token) {
        assert front[..k] == steps[..k];
      }
      AcceptedIffNothingEnded(w, front, token);
      RunKeepsInv(w, front);
      RunKeepsInv(w, steps);
      StepEvolves(Run(w, front), steps[n]);
      RefusedMeansDeadOrDormant(Run(w, steps), token);
      assert EndsAt(w, steps, n, token) == Ends(Run(w, front), steps[n], token);
      if Refused(Run(w, front), token) {
        InvOf(Run(w, front), token);
        DeathIsFinal(Run(w, front), Run(w, steps), token);
      } else {
        EndedNextIsDead(Run(w, front), steps[n], token);
        RefusedNextIffEnded(Run(w, front), steps[n], token);
      }
    }
  }
}
