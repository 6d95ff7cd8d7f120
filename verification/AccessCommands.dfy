/** The tenant-side transactions that change who may do what: invitation, access update,
    role creation, update and deactivation, and the membership life cycle. */
module AccessCommands {
  import opened Basics
  import opened Policy
  import opened ScopeTree
  import opened AccessTables

  const OWNER := "TENANT_OWNER"

  /** What the request's session says about its actor; userCurrent stands for the user
      row being active at the session's version. */
  datatype Actor = Actor(memberId: Id, userId: Id, authVersion: nat, userCurrent: bool)

  datatype ProposedGrant = ProposedGrant(nodeId: Id, actions: seq<ScopeAction>)

  datatype Proposed = Proposed(roleId: Id, grants: seq<ProposedGrant>)

  datatype Error =
    | NotAuthorized | NotFound | InvalidRoleOrScope | UnknownCapability | DelegationDenied
    | ProtectedRole | VersionConflict | PreviewStale | FinalOwnerRequired | UniqueViolation

  // ---------------------------------------------------------------------------
  // The actor
  // ---------------------------------------------------------------------------

  predicate ActorCurrent(t: Tables, actor: Actor) {
    && actor.memberId in t.members
    && t.members[actor.memberId].userId == Some(actor.userId)
    && t.members[actor.memberId].status.Active?
    && t.members[actor.memberId].authVersion == actor.authVersion
    && actor.userCurrent
  }

  function NodeResource(t: Tables, node: Id): Resource {
    Resource(t.tenantId, [node], None, false)
  }

  function DecideNode(t: Tables, actor: Actor, capability: string, action: ScopeAction, node: Id, now: Time): Decision
    requires WellFormed(t.tree)
  {
    if actor.memberId !in t.members then Deny(SessionStale)
    else Decide(t, actor.memberId, actor.userId, ActorCurrent(t, actor), capability, action, NodeResource(t, node), now)
  }

  predicate AuthorizedAtRoot(t: Tables, actor: Actor, capability: string, root: Id, now: Time)
    requires WellFormed(t.tree)
  {
    root in t.tree && t.tree[root].active && DecideNode(t, actor, capability, Admin, root, now).Allow?
  }

  /** The coarse owner test: an active assignment to the owner role, effective or not. */
  predicate IsOwner(t: Tables, actor: Actor) {
    && actor.memberId in t.members
    && exists row <- t.members[actor.memberId].assignments ::
         row.active && row.roleId in t.roles && t.roles[row.roleId].code == OWNER
  }

  // ---------------------------------------------------------------------------
  // Delegation checks
  // ---------------------------------------------------------------------------

  /** From n upwards through active nodes only. */
  function ActiveChain(tree: Tree, n: Id): seq<Id>
    requires WellFormed(tree)
    decreases if n in tree then Rank(tree[n].scopeType) else 0
  {
    if n !in tree || !tree[n].active then []
    else
      match tree[n].parent
      case None => [n]
      case Some(p) => [n] + ActiveChain(tree, p)
  }

  predicate OwnerDelegates(t: Tables, actor: Actor, capability: string, node: Id, now: Time)
    requires WellFormed(t.tree)
  {
    && actor.memberId in t.members
    && exists row <- t.members[actor.memberId].assignments ::
         && Effective(row.active, row.from, row.to, now)
         && row.roleId in t.roles && t.roles[row.roleId].active && t.roles[row.roleId].code == OWNER
         && capability in t.roles[row.roleId].capabilities
         && exists g <- row.grants ::
              Effective(g.active, g.from, g.to, now) && g.action.Admin? && g.nodeId in ActiveChain(t.tree, node)
  }

  function FindAssignment(assignments: seq<Assignment>, id: Id): Option<Assignment> {
    if assignments == [] then None
    else if assignments[0].id == id then Some(assignments[0])
    else FindAssignment(assignments[1..], id)
  }

  function FindGrant(grants: seq<Grant>, node: Id): Option<Grant> {
    if grants == [] then None
    else if grants[0].nodeId == node then Some(grants[0])
    else FindGrant(grants[1..], node)
  }

  /** The grant looked up again from a decision's references is an ADMIN grant. */
  predicate AllowedByAdmin(t: Tables, actor: Actor, decision: Decision, now: Time) {
    && decision.Allow? && actor.memberId in t.members
    && var a := FindAssignment(PolicyData(t, actor.memberId, now), decision.assignmentId);
    && a.Some?
    && var g := FindGrant(a.value.grants, decision.grantNodeId);
    && g.Some? && g.value.action.Admin?
  }

  predicate MayDelegate(t: Tables, actor: Actor, capability: string, node: Id, now: Time)
    requires WellFormed(t.tree)
  {
    if IsOwner(t, actor) then OwnerDelegates(t, actor, capability, node, now)
    else
      AllowedByAdmin(t, actor, DecideNode(t, actor, capability, ActionForCapability(capability), node, now), now)
  }

  predicate Delegable(t: Tables, actor: Actor, capability: string) {
    capability in t.catalogue && (t.catalogue[capability].delegable || IsOwner(t, actor))
  }

  /** What one proposed role must satisfy: every live capability on every granted node. */
  predicate ProposalDelegable(t: Tables, actor: Actor, p: Proposed, now: Time)
    requires WellFormed(t.tree)
  {
    p.roleId in t.roles ==>
      forall c <- LiveCapabilities(t, t.roles[p.roleId].capabilities) ::
        && Delegable(t, actor, c)
        && forall g <- p.grants :: MayDelegate(t, actor, c, g.nodeId, now)
  }

  predicate DelegationOk(t: Tables, actor: Actor, proposed: seq<Proposed>, now: Time)
    requires WellFormed(t.tree)
  {
    forall p <- proposed :: ProposalDelegable(t, actor, p, now)
  }

  predicate AssignmentsValid(t: Tables, proposed: seq<Proposed>, audience: Audience) {
    forall p <- proposed ::
      && p.roleId in t.roles && t.roles[p.roleId].active && audience in t.roles[p.roleId].audiences
      && forall g <- p.grants :: g.nodeId in t.tree && t.tree[g.nodeId].active
  }

  predicate RoleCapabilityOk(t: Tables, actor: Actor, root: Id, c: string, now: Time)
    requires WellFormed(t.tree)
  {
    && Delegable(t, actor, c)
    && AllowedByAdmin(t, actor, DecideNode(t, actor, c, ActionForCapability(c), root, now), now)
  }

  // ---------------------------------------------------------------------------
  // Rows written by an accepted proposal
  // ---------------------------------------------------------------------------

  function Distinct<T(==)>(xs: seq<T>): seq<T> {
    if xs == [] then []
    else
      var front := Distinct(xs[..|xs| - 1]);
      if xs[|xs| - 1] in front then front else front + [xs[|xs| - 1]]
  }

  lemma {:induction false} DistinctMembers<T>(xs: seq<T>, x: T)
    ensures x in Distinct(xs) <==> x in xs
  {
    if xs != [] {
      DistinctMembers(xs[..|xs| - 1], x);
      DistinctMembers(xs[..|xs| - 1], xs[|xs| - 1]);
      assert xs == xs[..|xs| - 1] + [xs[|xs| - 1]];
    }
  }

  function ActionRows(node: Id, actions: seq<ScopeAction>, now: Time): seq<GrantRow> {
    seq(|actions|, i requires 0 <= i < |actions| => GrantRow(node, actions[i], true, now, None))
  }

  function SavedGrants(grants: seq<ProposedGrant>, now: Time): seq<GrantRow> {
    if grants == [] then []
    else
      var last := grants[|grants| - 1];
      SavedGrants(grants[..|grants| - 1], now) + ActionRows(last.nodeId, Distinct(last.actions), now)
  }

  function SavedRow(p: Proposed, id: Id, now: Time): AssignmentRow {
    AssignmentRow(id, p.roleId, true, now, None, SavedGrants(p.grants, now))
  }

  function SavedRows(proposed: seq<Proposed>, ids: seq<Id>, now: Time): seq<AssignmentRow>
    requires |ids| == |proposed|
  {
    seq(|proposed|, i requires 0 <= i < |proposed| => SavedRow(proposed[i], ids[i], now))
  }

  predicate NoRepeats<T(==)>(xs: seq<T>) {
    forall i, j :: 0 <= i < j < |xs| ==> xs[i] != xs[j]
  }

  /** The unique keys of the two tables: one row per role, one per node and action. */
  predicate Insertable(rows: seq<AssignmentRow>) {
    && (forall i, j :: 0 <= i < j < |rows| ==> rows[i].roleId != rows[j].roleId)
    && (forall row <- rows :: NoRepeats(row.grants))
  }

  // ---------------------------------------------------------------------------
  // The final owner
  // ---------------------------------------------------------------------------

  function OwnerRoles(t: Tables): set<Id> {
    set r | r in t.roles && t.roles[r].code == OWNER
  }

  predicate HoldsOwnerFloor(t: Tables, m: Member, root: Id) {
    && m.status.Active?
    && exists row <- m.assignments ::
         && row.active && row.roleId in t.roles
         && t.roles[row.roleId].code == OWNER && t.roles[row.roleId].active && t.roles[row.roleId].protected
         && exists g <- row.grants :: g.active && g.action.Admin? && g.nodeId == root
  }

  predicate OtherOwner(t: Tables, member: Id, root: Id) {
    exists m <- t.members :: m != member && HoldsOwnerFloor(t, t.members[m], root)
  }

  predicate KeepsOwnerFloor(t: Tables, proposed: seq<Proposed>, root: Id) {
    exists p <- proposed :: p.roleId in OwnerRoles(t) && exists g <- p.grants :: g.nodeId == root && Admin in g.actions
  }

  /** The check made under the final-owner lock. */
  predicate FinalOwnerSafe(t: Tables, member: Id, proposed: seq<Proposed>, root: Id) {
    OwnerRoles(t) == {} || KeepsOwnerFloor(t, proposed, root) || OtherOwner(t, member, root)
  }

  // ---------------------------------------------------------------------------
  // The preview
  // ---------------------------------------------------------------------------

  /** What a preview of an access change is bound to; its hash is taken to be collision-free. */
  datatype Fingerprint = Fingerprint(tenantId: Id, member: Id, expectedVersion: nat, actorVersion: nat,
                                     proposed: seq<Proposed>, roleVersions: map<Id, nat>, newest: Option<nat>, active: nat)

  lemma {:induction false} HasLargest(versions: set<nat>)
    requires versions != {}
    ensures exists v <- versions :: IsLargest(versions, v)
    decreases |versions|
  {
    var v :| v in versions;
    var rest := versions - {v};
    if rest == {} {
      assert versions == {v};
      assert IsLargest(versions, v);
    } else {
      HasLargest(rest);
      var w :| w in rest && IsLargest(rest, w);
      LargestOfMore(rest, w, v);
      assert versions == rest + {v};
      assert IsLargest(versions, if v <= w then w else v);
    }
  }

  lemma LargestOfMore(rest: set<nat>, w: nat, v: nat)
    requires IsLargest(rest, w)
    ensures IsLargest(rest + {v}, if v <= w then w else v)
  {
  }

  predicate IsLargest(versions: set<nat>, v: nat) {
    v in versions && forall u <- versions :: u <= v
  }

  function Largest(versions: set<nat>): Option<nat> {
    if versions == {} then None
    else
      HasLargest(versions);
      var v :| v in versions && IsLargest(versions, v);
      Some(v)
  }

  function PreviewFingerprint(t: Tables, actor: Actor, member: Id, expectedVersion: nat, proposed: seq<Proposed>): Fingerprint {
    var codes := set c | c in t.catalogue && t.catalogue[c].active;
    Fingerprint(t.tenantId, member, expectedVersion, actor.authVersion, proposed,
                map r | r in t.roles && (exists p <- proposed :: p.roleId == r) :: t.roles[r].version,
                Largest(set c | c in codes :: t.catalogue[c].introduced), |codes|)
  }

  // ---------------------------------------------------------------------------
  // The transactions
  // ---------------------------------------------------------------------------

  function WithRows(t: Tables, member: Id, rows: seq<AssignmentRow>): Tables
    requires member in t.members
  {
    var m := t.members[member];
    t.(members := t.members[member := m.(assignments := rows, authVersion := m.authVersion + 1, version := m.version + 1)])
  }

  function UpdateAccess(t: Tables, actor: Actor, member: Id, expectedVersion: nat, preview: Fingerprint,
                        proposed: seq<Proposed>, ids: seq<Id>, root: Id, now: Time): Result<Tables, Error>
    requires WellFormed(t.tree) && |ids| == |proposed|
  {
    if !AuthorizedAtRoot(t, actor, "identity.user.admin", root, now) then Err(NotAuthorized)
    else if member !in t.members then Err(NotFound)
    else if !AssignmentsValid(t, proposed, t.members[member].audience) then Err(InvalidRoleOrScope)
    else if !DelegationOk(t, actor, proposed, now) then Err(DelegationDenied)
    else if t.members[member].version != expectedVersion then Err(VersionConflict)
    else if preview != PreviewFingerprint(t, actor, member, expectedVersion, proposed) then Err(PreviewStale)
    else if !FinalOwnerSafe(t, member, proposed, root) then Err(FinalOwnerRequired)
    else if !Insertable(SavedRows(proposed, ids, now)) then Err(UniqueViolation)
    else Ok(WithRows(t, member, SavedRows(proposed, ids, now)))
  }

  function Invite(t: Tables, actor: Actor, newMember: Id, audience: Audience, proposed: seq<Proposed>, ids: seq<Id>,
                  root: Id, now: Time): Result<Tables, Error>
    requires WellFormed(t.tree) && |ids| == |proposed| && newMember !in t.members
  {
    if !AuthorizedAtRoot(t, actor, "identity.user.admin", root, now) then Err(NotAuthorized)
    else if !AssignmentsValid(t, proposed, audience) then Err(InvalidRoleOrScope)
    else if !DelegationOk(t, actor, proposed, now) then Err(DelegationDenied)
    else if !Insertable(SavedRows(proposed, ids, now)) then Err(UniqueViolation)
    else
      Ok(t.(members := t.members[newMember := Member(None, Invited, audience, 1, 1, SavedRows(proposed, ids, now))]))
  }

  predicate CodeFree(t: Tables, code: string, except: set<Id>) {
    forall r <- t.roles :: r !in except ==> t.roles[r].code != code
  }

  function RoleChecks(t: Tables, actor: Actor, capabilities: seq<string>, root: Id, now: Time): Option<Error>
    requires WellFormed(t.tree)
  {
    if !AuthorizedAtRoot(t, actor, "identity.role.admin", root, now) then Some(NotAuthorized)
    else if exists c <- capabilities :: c !in t.catalogue || !t.catalogue[c].active then Some(UnknownCapability)
    else if exists c <- capabilities :: !RoleCapabilityOk(t, actor, root, c, now) then Some(DelegationDenied)
    else None
  }

  function CreateRole(t: Tables, actor: Actor, newRole: Id, code: string, audiences: set<Audience>,
                      capabilities: seq<string>, root: Id, now: Time): Result<Tables, Error>
    requires WellFormed(t.tree) && newRole !in t.roles
  {
    match RoleChecks(t, actor, capabilities, root, now)
    case Some(e) => Err(e)
    case None =>
      if !CodeFree(t, code, {}) || !NoRepeats(capabilities) then Err(UniqueViolation)
      else Ok(t.(roles := t.roles[newRole := Role(code, false, true, 1, audiences, capabilities)]))
  }

  /** Every membership assigned to the role, whatever the assignment's state, is stale afterwards. */
  function BumpHolders(t: Tables, role: Id): map<Id, Member> {
    map m | m in t.members ::
      if exists row <- t.members[m].assignments :: row.roleId == role
      then t.members[m].(authVersion := t.members[m].authVersion + 1)
      else t.members[m]
  }

  function UpdateRole(t: Tables, actor: Actor, role: Id, expectedVersion: nat, code: string, audiences: set<Audience>,
                      capabilities: seq<string>, root: Id, now: Time): Result<Tables, Error>
    requires WellFormed(t.tree)
  {
    match RoleChecks(t, actor, capabilities, root, now)
    case Some(e) => Err(e)
    case None =>
      if role !in t.roles then Err(NotFound)
      else if t.roles[role].protected then Err(ProtectedRole)
      else if t.roles[role].version != expectedVersion then Err(VersionConflict)
      else if !NoRepeats(capabilities) || !CodeFree(t, code, {role}) then Err(UniqueViolation)
      else
        var r := t.roles[role];
        Ok(t.(roles := t.roles[role := Role(code, r.protected, r.active, r.version + 1, audiences, capabilities)],
              members := BumpHolders(t, role)))
  }

  function DeactivateRole(t: Tables, actor: Actor, role: Id, expectedVersion: nat, root: Id, now: Time)
    : Result<Tables, Error>
    requires WellFormed(t.tree)
  {
    if !AuthorizedAtRoot(t, actor, "identity.role.admin", root, now) then Err(NotAuthorized)
    else if role !in t.roles then Err(NotFound)
    else if t.roles[role].protected then Err(ProtectedRole)
    else if t.roles[role].version != expectedVersion then Err(VersionConflict)
    else
      var r := t.roles[role];
      Ok(t.(roles := t.roles[role := r.(active := false, version := r.version + 1)], members := BumpHolders(t, role)))
  }

  function Lifecycle(t: Tables, actor: Actor, member: Id, expectedVersion: nat, suspend: bool, root: Id, now: Time)
    : Result<Tables, Error>
    requires WellFormed(t.tree)
  {
    if !AuthorizedAtRoot(t, actor, "identity.user.admin", root, now) then Err(NotAuthorized)
    else if member !in t.members then Err(NotFound)
    else if t.members[member].version != expectedVersion then Err(VersionConflict)
    else if suspend && !FinalOwnerSafe(t, member, [], root) then Err(FinalOwnerRequired)
    else
      var m := t.members[member];
      Ok(t.(members := t.members[member :=
        m.(status := if suspend then Suspended else Status.Active,
           authVersion := m.authVersion + 1, version := m.version + 1)]))
  }

  /** Acceptance binds the invited membership to a user and activates it. */
  function AcceptInvitation(t: Tables, member: Id, userId: Id): Result<Tables, Error> {
    if member !in t.members then Err(NotFound)
    else
      var m := t.members[member];
      Ok(t.(members := t.members[member :=
        m.(userId := Some(userId), status := Status.Active, authVersion := m.authVersion + 1, version := m.version + 1)]))
  }
}
