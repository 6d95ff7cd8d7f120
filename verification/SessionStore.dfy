/** The session service as it runs on its tables; each method commits the step of the same
    name in Sessions, or leaves everything as it was. What a commit means is stated through
    the guard: which sessions are refused from now on, and that the rest are judged as before. */
module SessionStore {
  import opened Basics
  import opened Sessions

  class Store {
    var now: Time
    var users: map<Id, User>
    var tenants: map<Id, bool>
    var members: map<Id, Membership>
    var sessions: map<Id, Session>
    var requests: set<Id>
    var errands: map<Id, Errand>

    function View(): World
      reads this
    {
      World(now, users, tenants, members, sessions, requests, errands)
    }

    /** The step has been committed if it could be, and `ok` says whether it was. */
    ghost predicate Commits(before: World, step: Step, ok: bool)
      reads this
    {
      ok == Apply(before, step).Some? && View() == After(before, step)
    }

    constructor (w: World)
      ensures View() == w
    {
      now, users, tenants, members := w.now, w.users, w.tenants, w.members;
      sessions, requests, errands := w.sessions, w.requests, w.errands;
    }

    /** The joined row, then the checks in the order they are made. */
    method Session(token: Id, allowRestricted: bool) returns (r: Result<Sessions.Session, Refusal>)
      ensures r == Guard(View(), token, allowRestricted)
    {
      if token !in sessions { return Err(Unauthenticated); }
      var s := sessions[token];
      if s.revoked || s.expires <= now { return Err(Unauthenticated); }
      var stale := s.user !in users || !users[s.user].active || s.userVersion != users[s.user].version;
      if s.context.Some? {
        var c := s.context.value;
        stale := stale || c.tenant !in tenants || !tenants[c.tenant];
        stale := stale || c.member !in members || members[c.member].tenant != c.tenant
                 || !members[c.member].status.Active? || c.version != members[c.member].version;
      }
      if stale { return Err(Stale); }
      if s.restricted && !allowRestricted { return Err(MfaRequired); }
      r := Ok(s);
    }

    /** The guard accepts the new session exactly when it has time to live and its user and
        tenant are active; every other session is judged as before. */
    method NewSession(token: Id, user: Id, member: Option<Id>, restricted: bool, ttl: nat) returns (ok: bool)
      modifies this`sessions
      ensures ok == Sessions.NewSession(old(View()), token, user, member, restricted, ttl).Some?
      ensures View() == if ok then Sessions.NewSession(old(View()), token, user, member, restricted, ttl).value else old(View())
      ensures ok ==> user in users && (!Refused(View(), token) <==>
                ttl > 0 && users[user].active && (member.Some? ==> InActiveTenant(View(), member.value)))
      ensures forall t <- old(sessions) :: SameVerdict(old(View()), View(), t)
    {
      if user !in users || token in sessions { return false; }
      var context := None;
      if member.Some? {
        if member.value !in members || members[member.value].user != Some(user) || !members[member.value].status.Active? {
          return false;
        }
        context := Some(Context(members[member.value].tenant, member.value, members[member.value].version));
      }
      NewSessionIsAcceptedIff(View(), token, user, member, restricted, ttl);
      sessions := sessions[token := Sessions.Session(user, users[user].version, context, restricted, now + ttl, false)];
      ok := true;
    }

    /** Completing a factor trades the restricted session for a full one. */
    method CompleteMfa(token: Id, member: Id, newToken: Id, ttl: nat) returns (ok: bool)
      modifies this`sessions
      ensures Commits(old(View()), Step.CompleteMfa(token, member, newToken, ttl), ok)
      ensures ok ==> Refused(View(), token)
    {
      if token !in requests || token !in sessions || sessions[token].context.None?
         || member !in members || members[member].tenant != sessions[token].context.value.tenant
      {
        return false;
      }
      var before, user := sessions, sessions[token].user;
      sessions := RevokeOne(sessions, token);
      ok := NewSession(newToken, user, Some(member), false, ttl);
      if !ok { sessions := before; }
    }

    /** Signing in reads the account and the chosen membership with its tenant's status. */
    method BeginLogin(tx: Id, user: Id, chosen: Option<Id>) returns (ok: bool)
      modifies this`errands
      ensures Commits(old(View()), Step.BeginLogin(tx, user, chosen), ok)
    {
      if user !in users || !users[user].active || tx in errands { return false; }
      if chosen.Some? && !(InActiveTenant(View(), chosen.value) && Holds(View(), user, chosen.value)) { return false; }
      errands := errands[tx := SigningIn(user, chosen)];
      ok := true;
    }

    method Login(tx: Id, newToken: Id, restricted: bool, ttl: nat) returns (ok: bool)
      modifies this`errands, this`sessions
      ensures Commits(old(View()), Step.Login(tx, newToken, restricted, ttl), ok)
    {
      if tx !in errands || !errands[tx].SigningIn? { return false; }
      var before, user, chosen := errands, errands[tx].user, errands[tx].chosen;
      errands := errands - {tx};
      ok := NewSession(newToken, user, chosen, restricted, ttl);
      if !ok { errands := before; }
    }

    method BeginSwitch(tx: Id, token: Id, member: Id) returns (ok: bool)
      modifies this`errands
      ensures Commits(old(View()), Step.BeginSwitch(tx, token, member), ok)
    {
      if token !in requests || token !in sessions || tx in errands { return false; }
      if !InActiveTenant(View(), member) || !Holds(View(), sessions[token].user, member) { return false; }
      errands := errands[tx := Switching(token, member)];
      ok := true;
    }

    /** Switching revokes the session it was asked through. */
    method SwitchTenant(tx: Id, newToken: Id, ttl: nat) returns (ok: bool)
      modifies this`errands, this`sessions
      ensures Commits(old(View()), Step.SwitchTenant(tx, newToken, ttl), ok)
      ensures ok ==> Refused(View(), old(errands)[tx].token)
    {
      if tx !in errands || !errands[tx].Switching? || errands[tx].token !in sessions { return false; }
      var token, member, before, rows := errands[tx].token, errands[tx].member, errands, sessions;
      errands, sessions := errands - {tx}, RevokeOne(sessions, token);
      ok := NewSession(newToken, rows[token].user, Some(member), false, ttl);
      if !ok { errands, sessions := before, rows; }
    }

    method BeginAcceptance(tx: Id, member: Id, user: Id) returns (ok: bool)
      modifies this`errands
      ensures Commits(old(View()), Step.BeginAcceptance(tx, member, user), ok)
    {
      if !InActiveTenant(View(), member) || user !in users || !users[user].active || tx in errands { return false; }
      errands := errands[tx := Accepting(member, user)];
      ok := true;
    }

    /** Accepting an invitation ends whatever was open through the membership before. */
    method AcceptAccess(tx: Id, newToken: Id, restricted: bool, ttl: nat) returns (ok: bool)
      modifies this`errands, this`sessions, this`members
      ensures Commits(old(View()), Step.AcceptAccess(tx, newToken, restricted, ttl), ok)
      ensures ok && Inv(old(View())) ==>
                var member := old(errands)[tx].member;
                forall t <- SessionsThrough(old(View()), members[member].tenant, {member}) :: Refused(View(), t)
    {
      if tx !in errands || !errands[tx].Accepting? || errands[tx].member !in members { return false; }
      var before, held, member, user := errands, members, errands[tx].member, errands[tx].user;
      errands := errands - {tx};
      members := members[member := members[member].(user := Some(user), status := Active, version := members[member].version + 1)];
      ok := NewSession(newToken, user, Some(member), restricted, ttl);
      if !ok { errands, members := before, held; }
    }

    /** The user's version, then every session of the user in every tenant. */
    method CompletePasswordReset(user: Id) returns (ok: bool)
      modifies this`sessions, this`users
      ensures Commits(old(View()), PasswordReset(user), ok)
      ensures ok <==> user in old(users) && old(users)[user].active
      ensures EndsExactly(old(View()), View(), if ok then SessionsOf(old(View()), user) else {})
    {
      if user !in users || !users[user].active { return false; }
      UserBumpEndsExactly(View(), user);
      users := users[user := users[user].(version := users[user].version + 1)];
      sessions := RevokeUser(sessions, user);
      ok := true;
    }

    /** Ends what the member's user has open anywhere, and what anyone has open through the member. */
    method ResetMfa(tenant: Id, member: Id) returns (ok: bool)
      modifies this`sessions, this`users, this`members
      ensures Commits(old(View()), MfaReset(tenant, member), ok)
      ensures ok ==> member in old(members) && old(members)[member].user.Some?
      ensures ok && Inv(old(View())) ==>
                EndsExactly(old(View()), View(), SessionsOf(old(View()), old(members)[member].user.value)
                                                 + SessionsThrough(old(View()), tenant, {member}))
    {
      if member !in members || members[member].tenant != tenant { return false; }
      if members[member].user.None? || members[member].user.value !in users { return false; }
      if Inv(View()) { MfaResetEndsExactly(View(), tenant, member); }
      var user := members[member].user.value;
      users := users[user := users[user].(version := users[user].version + 1)];
      members := BumpMembers(members, tenant, {member});
      sessions := RevokeUser(sessions, user);
      ok := true;
    }

    /** Bumps the drivers of the old and new assignment, and revokes what they have open in
        the tenant. */
    method ReassignTrip(tenant: Id, drivers: set<Id>)
      modifies this`sessions, this`members
      ensures Commits(old(View()), TripReassigned(tenant, drivers), true)
      ensures EndsExactly(old(View()), View(), SessionsThrough(old(View()), tenant, MembersOf(old(View()), tenant, drivers)))
    {
      var affected := set m | m in members && members[m].tenant == tenant
                              && members[m].user.Some? && members[m].user.value in drivers;
      AccessChangeEndsExactly(View(), tenant, affected);
      members := BumpMembers(members, tenant, affected);
      sessions := RevokeMembers(sessions, tenant, affected);
    }

    /** Deactivation ends the tenant's sessions; activation wakes only its dormant ones. */
    method SetTenantStatus(tenant: Id, active: bool) returns (ok: bool)
      modifies this`sessions, this`tenants
      ensures Commits(old(View()), TenantStatus(tenant, active), ok)
      ensures ok && !active ==> EndsExactly(old(View()), View(), SessionsIn(old(View()), tenant))
      ensures ok && active && Inv(old(View())) ==> forall t <- old(sessions) ::
                if InTenant(old(sessions)[t], tenant) && Dormant(old(View()), t) then !Refused(View(), t)
                else SameVerdict(old(View()), View(), t)
    {
      if tenant !in tenants || tenants[tenant] == active { return false; }
      if active {
        if Inv(View()) { ReactivationWakesExactly(View(), tenant); }
      } else {
        DeactivationEndsExactly(View(), tenant);
      }
      tenants := tenants[tenant := active];
      if !active {
        sessions := RevokeTenant(sessions, tenant);
      }
      ok := true;
    }
  }
}
