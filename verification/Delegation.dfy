/** Delegation never amplifies: over every run of the access commands of one tenant, nobody in
    it ever holds a permission, then or later, that nobody held at the start, then or later. */
module Delegation {
  import opened Basics
  import opened Policy
  import opened ScopeTree
  import opened AccessTables
  import opened AccessCommands

  /** The member's rows permit the action on the node at an instant, for a resource that
      demands no current assignment. */
  ghost predicate Holds(t: Tables, member: Id, capability: string, action: ScopeAction, node: Id, at: Time)
    requires member in t.members
  {
    CapabilityAllowsAction(capability, action) &&
    exists row <- t.members[member].assignments, g <- row.grants ::
      RowCarries(t, row, capability, at) && GrantLive(g, action, at) && Above(t.tree, node, g.nodeId)
  }

  /** Some membership, whatever its status, holds the permission now or at a later instant. */
  ghost predicate Authority(t: Tables, capability: string, action: ScopeAction, node: Id, now: Time) {
    exists m <- t.members, at: Time {:trigger Holds(t, m, capability, action, node, at)} ::
      now <= at && Holds(t, m, capability, action, node, at)
  }

  /** The second state's authority is contained in the first's. */
  ghost predicate NoMoreAuthority(t: Tables, now: Time, t': Tables, now': Time) {
    forall capability, action, node ::
      Authority(t', capability, action, node, now') ==> Authority(t, capability, action, node, now)
  }

  /** Holding is what the oracle allows a current member on that node, drivers included. */
  lemma HoldsIsTheOracle(t: Tables, member: Id, userId: Id, capability: string, action: ScopeAction, node: Id, at: Time)
    requires TablesOk(t) && member in t.members
    ensures Holds(t, member, capability, action, node, at) <==>
      Decide(t, member, userId, true, capability, action, NodeResource(t, node), at).Allow?
  {
    hide Decide, CapabilityAllowsAction, RowCarries, GrantLive, Above;
    var r := NodeResource(t, node);
    DecideMeaning(t, member, userId, true, capability, action, r, at);
    assert node in r.nodeIds;
    if Holds(t, member, capability, action, node, at) {
      var row, g :| row in t.members[member].assignments && g in row.grants
        && RowCarries(t, row, capability, at) && GrantLive(g, action, at) && Above(t.tree, node, g.nodeId);
      assert GrantReaches(t, g, r.nodeIds);
      assert RowPermits(t, row, userId, capability, action, r, at);
    }
  }

  // ---------------------------------------------------------------------------
  // An accepted check means an ADMIN grant above
  // ---------------------------------------------------------------------------

  /** An ADMIN grant of the actor, carrying the capability, at or above the node. */
  ghost predicate AdminAbove(t: Tables, actor: Actor, capability: string, node: Id, now: Time) {
    && actor.memberId in t.members
    && exists row <- t.members[actor.memberId].assignments, g <- row.grants ::
         && RowCarries(t, row, capability, now)
         && Effective(g.active, g.from, g.to, now) && g.action.Admin?
         && Above(t.tree, node, g.nodeId)
  }

  /** Such a grant gives every action of the capability on everything below the node. */
  lemma AdminAboveHoldsBelow(t: Tables, actor: Actor, capability: string, node: Id, now: Time,
                             action: ScopeAction, below: Id)
    requires AdminAbove(t, actor, capability, node, now)
    requires Above(t.tree, below, node) && CapabilityAllowsAction(capability, action)
    ensures Authority(t, capability, action, below, now)
  {
    hide CapabilityAllowsAction, RowCarries, Above;
    var row, g :| row in t.members[actor.memberId].assignments && g in row.grants
      && RowCarries(t, row, capability, now)
      && Effective(g.active, g.from, g.to, now) && g.action.Admin? && Above(t.tree, node, g.nodeId);
    AboveIsTransitive(t.tree, below, node, g.nodeId);
    assert GrantLive(g, action, now);
    assert Holds(t, actor.memberId, capability, action, below, now);
  }

  lemma {:induction false} ActiveChainIsAbove(tree: Tree, n: Id, a: Id)
    requires WellFormed(tree) && a in ActiveChain(tree, n)
    ensures Above(tree, n, a)
    decreases if n in tree then Rank(tree[n].scopeType) else 0
  {
    assert Up(tree, n, 0) == Some(n);
    if a != n {
      var p := tree[n].parent.value;
      ActiveChainIsAbove(tree, p, a);
      var k: nat :| Up(tree, p, k) == Some(a);
      assert Up(tree, n, k + 1) == Some(a);
    }
  }

  lemma OwnerDelegationIsAdmin(t: Tables, actor: Actor, capability: string, node: Id, now: Time)
    requires TablesOk(t) && OwnerDelegates(t, actor, capability, node, now)
    requires capability in t.catalogue && t.catalogue[capability].active
    ensures AdminAbove(t, actor, capability, node, now)
  {
    var row :| && row in t.members[actor.memberId].assignments
               && Effective(row.active, row.from, row.to, now)
               && row.roleId in t.roles && t.roles[row.roleId].active
               && capability in t.roles[row.roleId].capabilities
               && exists g <- row.grants ::
                    Effective(g.active, g.from, g.to, now) && g.action.Admin? && g.nodeId in ActiveChain(t.tree, node);
    var g :| g in row.grants
      && Effective(g.active, g.from, g.to, now) && g.action.Admin? && g.nodeId in ActiveChain(t.tree, node);
    ActiveChainIsAbove(t.tree, node, g.nodeId);
    assert RowCarries(t, row, capability, now);
  }

  lemma {:induction false} FindAssignmentFinds(assignments: seq<Assignment>, id: Id)
    ensures FindAssignment(assignments, id).Some? ==>
      FindAssignment(assignments, id).value in assignments && FindAssignment(assignments, id).value.id == id
  {
    if assignments != [] && assignments[0].id != id {
      FindAssignmentFinds(assignments[1..], id);
    }
  }

  lemma {:induction false} FindGrantFinds(grants: seq<Grant>, node: Id)
    ensures FindGrant(grants, node).Some? ==>
      FindGrant(grants, node).value in grants && FindGrant(grants, node).value.nodeId == node
  {
    if grants != [] && grants[0].nodeId != node {
      FindGrantFinds(grants[1..], node);
    }
  }

  /** A key names one row, so the assignment looked up again is the one that allowed. */
  lemma SameIdSameRow(t: Tables, member: Id, now: Time, a: Assignment, b: Assignment)
    requires TablesOk(t) && member in t.members
    requires a in PolicyData(t, member, now) && b in PolicyData(t, member, now) && a.id == b.id
    ensures a == b
    ensures exists row <- t.members[member].assignments :: AssignmentLive(t, row, now) && a == PolicyAssignment(t, row, now)
  {
    hide AssignmentLive;
    var rows := t.members[member].assignments;
    PolicyRowsMember(t, rows, now, a);
    PolicyRowsMember(t, rows, now, b);
    var x :| x in rows && AssignmentLive(t, x, now) && a == PolicyAssignment(t, x, now);
    var y :| y in rows && AssignmentLive(t, y, now) && b == PolicyAssignment(t, y, now);
    assert MemberOk(t, t.members[member]);
    var i :| 0 <= i < |rows| && rows[i] == x;
    var j :| 0 <= j < |rows| && rows[j] == y;
    assert i == j;
  }

  lemma LiveAdminIsAbove(t: Tables, actor: Actor, row: AssignmentRow, p: Grant, capability: string, node: Id, now: Time)
    requires TablesOk(t) && actor.memberId in t.members && row in t.members[actor.memberId].assignments
    requires AssignmentLive(t, row, now)
    requires capability in PolicyAssignment(t, row, now).capabilities
    requires p in PolicyAssignment(t, row, now).grants && p.action.Admin?
    requires var ancestors := Ancestors(t.tree, [node]);
      node == p.nodeId || (node in ancestors && p.nodeId in ancestors[node])
    ensures AdminAbove(t, actor, capability, node, now)
  {
    hide Above, Ancestors, WellFormed;
    assert MemberOk(t, t.members[actor.memberId]) && RowOk(t, row);
    LiveCapabilitiesMember(t, t.roles[row.roleId].capabilities, capability);
    PolicyGrantsMember(t, row.grants, now, p);
    var g :| g in row.grants && Effective(g.active, g.from, g.to, now) && p == PolicyGrant(t, g);
    ReachesMeansAbove(t, g, [node], node, Ancestors(t.tree, [node]));
  }

  lemma AdminDecisionIsAdmin(t: Tables, actor: Actor, capability: string, action: ScopeAction, node: Id, now: Time)
    requires TablesOk(t)
    requires AllowedByAdmin(t, actor, DecideNode(t, actor, capability, action, node, now), now)
    ensures AdminAbove(t, actor, capability, node, now)
  {
    hide CapabilityAllowsAction, AssignmentLive, PolicyRows, PolicyAssignment, Ancestors, AdminAbove;
    var m := actor.memberId;
    var input := DecisionInput(t, m, actor.userId, ActorCurrent(t, actor), capability, action, NodeResource(t, node), now);
    var decision := Evaluate(input);
    EvaluateMeaning(input);
    var a :| && a in input.assignments && a.id == decision.assignmentId && Carries(a, input)
             && exists g <- a.grants :: g.nodeId == decision.grantNodeId && Permits(g, input);
    var used :| used in a.grants && used.nodeId == decision.grantNodeId && Permits(used, input);
    FindAssignmentFinds(input.assignments, decision.assignmentId);
    SameIdSameRow(t, m, now, a, FindAssignment(input.assignments, decision.assignmentId).value);
    FindGrantFinds(a.grants, decision.grantNodeId);
    var row :| row in t.members[m].assignments && AssignmentLive(t, row, now) && a == PolicyAssignment(t, row, now);
    LiveAdminIsAbove(t, actor, row, FindGrant(a.grants, decision.grantNodeId).value, capability, node, now);
  }

  /** An accepted delegation of a live capability on a node is dominated by the actor. */
  lemma DelegationIsDominated(t: Tables, actor: Actor, capability: string, node: Id, now: Time)
    requires TablesOk(t) && MayDelegate(t, actor, capability, node, now)
    requires capability in t.catalogue && t.catalogue[capability].active
    ensures AdminAbove(t, actor, capability, node, now)
  {
    hide AllowedByAdmin, OwnerDelegates, AdminAbove, TablesOk;
    if IsOwner(t, actor) {
      OwnerDelegationIsAdmin(t, actor, capability, node, now);
    } else {
      AdminDecisionIsAdmin(t, actor, capability, ActionForCapability(capability), node, now);
    }
  }

  // ---------------------------------------------------------------------------
  // Saved rows
  // ---------------------------------------------------------------------------

  lemma {:induction false} SavedGrantComesFrom(grants: seq<ProposedGrant>, now: Time, g: GrantRow)
    requires g in SavedGrants(grants, now)
    ensures exists p <- grants :: p.nodeId == g.nodeId && g.action in p.actions
  {
    var last := grants[|grants| - 1];
    var front := grants[..|grants| - 1];
    assert grants == front + [last];
    if g in SavedGrants(front, now) {
      SavedGrantComesFrom(front, now, g);
    } else {
      var i :| 0 <= i < |Distinct(last.actions)| && g == GrantRow(last.nodeId, Distinct(last.actions)[i], true, now, None);
      DistinctMembers(last.actions, g.action);
    }
  }

  /** Nothing a saved proposal permits exceeds the actor who proposed it. */
  lemma SavedRowsAddNothing(t: Tables, actor: Actor, proposed: seq<Proposed>, ids: seq<Id>, now: Time, row: AssignmentRow,
                            g: GrantRow, capability: string, action: ScopeAction, node: Id, at: Time)
    requires TablesOk(t) && |ids| == |proposed| && DelegationOk(t, actor, proposed, now)
    requires row in SavedRows(proposed, ids, now) && g in row.grants
    requires RowCarries(t, row, capability, at) && CapabilityAllowsAction(capability, action)
    requires Above(t.tree, node, g.nodeId)
    ensures Authority(t, capability, action, node, now)
  {
    hide MemberOk, CapabilityAllowsAction, Above, MayDelegate, Authority, Delegable, AdminAbove;
    var i :| 0 <= i < |proposed| && row == SavedRow(proposed[i], ids[i], now);
    var p := proposed[i];
    assert ProposalDelegable(t, actor, p, now);
    LiveCapabilitiesMember(t, t.roles[p.roleId].capabilities, capability);
    SavedGrantComesFrom(p.grants, now, g);
    var pg :| pg in p.grants && pg.nodeId == g.nodeId && g.action in pg.actions;
    assert MayDelegate(t, actor, capability, pg.nodeId, now);
    DelegationIsDominated(t, actor, capability, g.nodeId, now);
    AdminAboveHoldsBelow(t, actor, capability, g.nodeId, now, action, node);
  }

  // ---------------------------------------------------------------------------
  // One transaction
  // ---------------------------------------------------------------------------

  /** Replacing one member's rows by a delegated proposal, or adding such a member. */
  lemma ProposalAddsNothing(t: Tables, t': Tables, actor: Actor, member: Id, proposed: seq<Proposed>, ids: seq<Id>, now: Time)
    requires TablesOk(t) && |ids| == |proposed| && DelegationOk(t, actor, proposed, now)
    requires t' == t.(members := t'.members) && member in t'.members
    requires t'.members[member].assignments == SavedRows(proposed, ids, now)
    requires forall m <- t'.members :: m != member ==> m in t.members && t'.members[m].assignments == t.members[m].assignments
    ensures NoMoreAuthority(t, now, t', now)
  {
    hide TablesOk, CapabilityAllowsAction, Above, DelegationOk, SavedRows, AssignmentLive;
    forall capability, action, node | Authority(t', capability, action, node, now)
      ensures Authority(t, capability, action, node, now)
    {
      var m, at: Time :| m in t'.members && now <= at && Holds(t', m, capability, action, node, at);
      var row, g :| row in t'.members[m].assignments && g in row.grants
        && RowCarries(t', row, capability, at) && GrantLive(g, action, at) && Above(t'.tree, node, g.nodeId);
      assert RowCarries(t, row, capability, at) by { SameRolesSameRow(t, t', row, capability, at); }
      if m == member {
        SavedRowsAddNothing(t, actor, proposed, ids, now, row, g, capability, action, node, at);
      } else {
        assert Holds(t, m, capability, action, node, at);
      }
    }
  }

  lemma SameRolesSameRow(t: Tables, t': Tables, row: AssignmentRow, capability: string, at: Time)
    requires t'.roles == t.roles && t'.catalogue == t.catalogue && RowCarries(t', row, capability, at)
    ensures RowCarries(t, row, capability, at)
  {
  }

  /** Rewriting a role adds nothing the actor does not hold at the root, hence everywhere. */
  lemma RoleAddsNothing(t: Tables, t': Tables, actor: Actor, role: Id, root: Id, now: Time)
    requires TablesOk(t) && SingleRooted(t.tree, root)
    requires t'.tree == t.tree && t'.catalogue == t.catalogue && role in t'.roles
    requires forall r <- t'.roles :: r != role ==> r in t.roles && t'.roles[r] == t.roles[r]
    requires forall m <- t'.members :: m in t.members && t'.members[m].assignments == t.members[m].assignments
    requires forall c <- t'.roles[role].capabilities :: RoleCapabilityOk(t, actor, root, c, now)
    ensures NoMoreAuthority(t, now, t', now)
  {
    hide TablesOk, CapabilityAllowsAction, Above, RoleCapabilityOk, SingleRooted, WellFormed;
    forall capability, action, node | Authority(t', capability, action, node, now)
      ensures Authority(t, capability, action, node, now)
    {
      var m, at: Time :| m in t'.members && now <= at && Holds(t', m, capability, action, node, at);
      var row, g :| row in t'.members[m].assignments && g in row.grants
        && RowCarries(t', row, capability, at) && GrantLive(g, action, at) && Above(t'.tree, node, g.nodeId);
      if row.roleId == role {
        RootHolderHoldsAll(t, actor, root, capability, action, node, g.nodeId, now);
      } else {
        assert Holds(t, m, capability, action, node, at);
      }
    }
  }

  lemma RootHolderHoldsAll(t: Tables, actor: Actor, root: Id, capability: string, action: ScopeAction, node: Id, a: Id,
                           now: Time)
    requires TablesOk(t) && SingleRooted(t.tree, root) && RoleCapabilityOk(t, actor, root, capability, now)
    requires Above(t.tree, node, a) && CapabilityAllowsAction(capability, action)
    ensures Authority(t, capability, action, node, now)
  {
    hide CapabilityAllowsAction, AllowedByAdmin, AdminAbove, Authority;
    AdminDecisionIsAdmin(t, actor, capability, ActionForCapability(capability), root, now);
    var k: nat :| Up(t.tree, node, k) == Some(a);
    assert node in t.tree;
    RootIsAboveAll(t.tree, root, node);
    ChainIsReachability(t.tree, node, root);
    AdminAboveHoldsBelow(t, actor, capability, root, now, action, node);
  }

  // ---------------------------------------------------------------------------
  // Runs
  // ---------------------------------------------------------------------------

  /** The tenant-side commands; identifiers and instants the database supplies are arguments. */
  datatype Command =
    | DoInvite(newMember: Id, audience: Audience, proposed: seq<Proposed>, ids: seq<Id>)
    | DoUpdateAccess(member: Id, expectedVersion: nat, preview: Fingerprint, proposed: seq<Proposed>, ids: seq<Id>)
    | DoCreateRole(newRole: Id, code: string, audiences: set<Audience>, capabilities: seq<string>)
    | DoUpdateRole(role: Id, expectedVersion: nat, code: string, audiences: set<Audience>, capabilities: seq<string>)
    | DoDeactivateRole(role: Id, expectedVersion: nat)
    | DoLifecycle(member: Id, expectedVersion: nat, suspend: bool)
    | DoAccept(member: Id, userId: Id)

  /** New identifiers are new, and one proposal's row identifiers are distinct. */
  ghost predicate FreshIds(t: Tables, c: Command) {
    match c
    case DoInvite(m, _, proposed, ids) => m !in t.members && |ids| == |proposed| && NoRepeats(ids)
    case DoUpdateAccess(_, _, _, proposed, ids) => |ids| == |proposed| && NoRepeats(ids)
    case DoCreateRole(r, _, _, _) => r !in t.roles
    case _ => true
  }

  function Execute(t: Tables, actor: Actor, root: Id, c: Command, now: Time): Result<Tables, Error>
    requires TablesOk(t) && FreshIds(t, c)
  {
    match c
    case DoInvite(m, audience, proposed, ids) => Invite(t, actor, m, audience, proposed, ids, root, now)
    case DoUpdateAccess(m, v, preview, proposed, ids) => UpdateAccess(t, actor, m, v, preview, proposed, ids, root, now)
    case DoCreateRole(r, code, audiences, capabilities) =>
      CreateRole(t, actor, r, code, audiences, capabilities, root, now)
    case DoUpdateRole(r, v, code, audiences, capabilities) =>
      UpdateRole(t, actor, r, v, code, audiences, capabilities, root, now)
    case DoDeactivateRole(r, v) => DeactivateRole(t, actor, r, v, root, now)
    case DoLifecycle(m, v, suspend) => Lifecycle(t, actor, m, v, suspend, root, now)
    case DoAccept(m, userId) => AcceptInvitation(t, m, userId)
  }

  /** The state after a command: a refused one rolls back. */
  function After(t: Tables, actor: Actor, root: Id, c: Command, now: Time): Tables
    requires TablesOk(t) && FreshIds(t, c)
  {
    match Execute(t, actor, root, c, now)
    case Ok(t') => t'
    case Err(_) => t
  }

  lemma SavedRowsOk(t: Tables, proposed: seq<Proposed>, ids: seq<Id>, audience: Audience, now: Time)
    requires |ids| == |proposed| && NoRepeats(ids) && AssignmentsValid(t, proposed, audience)
    ensures DistinctIds(SavedRows(proposed, ids, now))
    ensures forall row <- SavedRows(proposed, ids, now) :: RowOk(t, row)
  {
    forall row | row in SavedRows(proposed, ids, now)
      ensures RowOk(t, row)
    {
      var i :| 0 <= i < |proposed| && row == SavedRow(proposed[i], ids[i], now);
      assert proposed[i] in proposed;
      forall g | g in row.grants
        ensures g.nodeId in t.tree
      {
        SavedGrantComesFrom(proposed[i].grants, now, g);
      }
    }
  }

  lemma TablesStayOk(t: Tables, actor: Actor, root: Id, c: Command, now: Time)
    requires TablesOk(t) && FreshIds(t, c)
    ensures TablesOk(After(t, actor, root, c, now)) && After(t, actor, root, c, now).tree == t.tree
  {
    hide AuthorizedAtRoot, DelegationOk, FinalOwnerSafe, Insertable, SavedRows, AssignmentsValid, NoRepeats,
         CodeFree, RoleChecks, DistinctIds;
    var t' := After(t, actor, root, c, now);
    match c {
      case DoInvite(m, audience, proposed, ids) =>
        if AssignmentsValid(t, proposed, audience) {
          SavedRowsOk(t, proposed, ids, audience, now);
        }
      case DoUpdateAccess(m, v, _, proposed, ids) =>
        if m in t.members && AssignmentsValid(t, proposed, t.members[m].audience) {
          SavedRowsOk(t, proposed, ids, t.members[m].audience, now);
        }
      case _ =>
    }
    forall m | m in t'.members
      ensures MemberOk(t', t'.members[m])
    {
      if m in t.members {
        assert MemberOk(t, t.members[m]);
      }
    }
  }

  /** No command adds authority. */
  lemma CommandAddsNothing(t: Tables, actor: Actor, root: Id, c: Command, now: Time)
    requires TablesOk(t) && FreshIds(t, c) && SingleRooted(t.tree, root)
    ensures NoMoreAuthority(t, now, After(t, actor, root, c, now), now)
  {
    hide TablesOk, AuthorizedAtRoot, DelegationOk, FinalOwnerSafe, Insertable, SavedRows, AssignmentsValid, NoRepeats,
         CodeFree, Authority, SingleRooted, RoleCapabilityOk;
    match c {
      case DoInvite(m, audience, proposed, ids) =>
        if Execute(t, actor, root, c, now).Ok? {
          ProposalAddsNothing(t, After(t, actor, root, c, now), actor, m, proposed, ids, now);
        }
      case DoUpdateAccess(m, v, _, proposed, ids) =>
        if Execute(t, actor, root, c, now).Ok? {
          ProposalAddsNothing(t, After(t, actor, root, c, now), actor, m, proposed, ids, now);
        }
      case DoCreateRole(r, code, audiences, capabilities) =>
        if Execute(t, actor, root, c, now).Ok? {
          RoleAddsNothing(t, After(t, actor, root, c, now), actor, r, root, now);
        }
      case DoUpdateRole(r, v, code, audiences, capabilities) =>
        if Execute(t, actor, root, c, now).Ok? {
          RoleAddsNothing(t, After(t, actor, root, c, now), actor, r, root, now);
        }
      case DoDeactivateRole(r, v) =>
        DeactivationOnlyRemoves(t, actor, root, r, v, now);
      case DoLifecycle(m, v, suspend) =>
        SameRowsSameAuthority(t, After(t, actor, root, c, now), now);
      case DoAccept(m, userId) =>
        SameRowsSameAuthority(t, After(t, actor, root, c, now), now);
    }
  }

  lemma SameRowsSameAuthority(t: Tables, t': Tables, now: Time)
    requires t' == t.(members := t'.members)
    requires forall m <- t'.members :: m in t.members && t'.members[m].assignments == t.members[m].assignments
    ensures NoMoreAuthority(t, now, t', now)
  {
    hide CapabilityAllowsAction, Above, AssignmentLive;
    forall capability, action, node | Authority(t', capability, action, node, now)
      ensures Authority(t, capability, action, node, now)
    {
      var m, at: Time :| m in t'.members && now <= at && Holds(t', m, capability, action, node, at);
      var row, g :| row in t'.members[m].assignments && g in row.grants
        && RowCarries(t', row, capability, at) && GrantLive(g, action, at) && Above(t'.tree, node, g.nodeId);
      SameRolesSameRow(t, t', row, capability, at);
      assert Holds(t, m, capability, action, node, at);
    }
  }

  lemma InactiveCarriesLess(t: Tables, t': Tables, role: Id, row: AssignmentRow, capability: string, at: Time)
    requires t'.catalogue == t.catalogue && role in t.roles && role in t'.roles && !t'.roles[role].active
    requires forall r <- t'.roles :: r != role ==> r in t.roles && t'.roles[r] == t.roles[r]
    requires RowCarries(t', row, capability, at)
    ensures RowCarries(t, row, capability, at)
  {
  }

  lemma DeactivationOnlyRemoves(t: Tables, actor: Actor, root: Id, role: Id, v: nat, now: Time)
    requires TablesOk(t)
    ensures NoMoreAuthority(t, now, After(t, actor, root, DoDeactivateRole(role, v), now), now)
  {
    hide CapabilityAllowsAction, Above, AuthorizedAtRoot, AssignmentLive, TablesOk;
    var t' := After(t, actor, root, DoDeactivateRole(role, v), now);
    if t' != t {
      forall capability, action, node | Authority(t', capability, action, node, now)
        ensures Authority(t, capability, action, node, now)
      {
        var m, at: Time :| m in t'.members && now <= at && Holds(t', m, capability, action, node, at);
        var row, g :| row in t'.members[m].assignments && g in row.grants
          && RowCarries(t', row, capability, at) && GrantLive(g, action, at) && Above(t'.tree, node, g.nodeId);
        InactiveCarriesLess(t, t', role, row, capability, at);
        assert Holds(t, m, capability, action, node, at);
      }
    }
  }

  /** A run: commands by any actors at instants that never go back. */
  datatype Entry = Entry(actor: Actor, command: Command, at: Time)

  ghost predicate RunFrom(t: Tables, root: Id, now: Time, run: seq<Entry>)
    requires TablesOk(t)
    decreases run
  {
    run == [] ||
    (&& now <= run[0].at && FreshIds(t, run[0].command)
     && TablesOk(After(t, run[0].actor, root, run[0].command, run[0].at))
     && RunFrom(After(t, run[0].actor, root, run[0].command, run[0].at), root, run[0].at, run[1..]))
  }

  ghost function Final(t: Tables, root: Id, now: Time, run: seq<Entry>): (Tables, Time)
    requires TablesOk(t) && RunFrom(t, root, now, run)
    decreases run
  {
    if run == [] then (t, now)
    else Final(After(t, run[0].actor, root, run[0].command, run[0].at), root, run[0].at, run[1..])
  }

  lemma TimeAddsNothing(t: Tables, now: Time, later: Time)
    requires now <= later
    ensures NoMoreAuthority(t, now, t, later)
  {
  }

  /** Over every run of tenant-side commands on a single-rooted tree, the permissions held
      by anybody at the end, then or later, were all held by somebody at the start. */
  lemma {:induction false} DelegationNeverAmplifies(t: Tables, root: Id, now: Time, run: seq<Entry>)
    requires TablesOk(t) && SingleRooted(t.tree, root) && RunFrom(t, root, now, run)
    ensures var (last, end) := Final(t, root, now, run); NoMoreAuthority(t, now, last, end)
    decreases run
  {
    hide TablesOk, Authority, SingleRooted, After, FreshIds;
    if run != [] {
      var e := run[0];
      var next := After(t, e.actor, root, e.command, e.at);
      TablesStayOk(t, e.actor, root, e.command, e.at);
      TimeAddsNothing(t, now, e.at);
      CommandAddsNothing(t, e.actor, root, e.command, e.at);
      DelegationNeverAmplifies(next, root, e.at, run[1..]);
    }
  }

  // ---------------------------------------------------------------------------
  // The preview is of what is written
  // ---------------------------------------------------------------------------

  /** A role keeps its row, or its version grows. */
  ghost predicate RolesAdvance(t: Tables, t': Tables) {
    forall r <- t.roles :: r in t'.roles && (t'.roles[r] == t.roles[r] || t.roles[r].version < t'.roles[r].version)
  }

  lemma CommandAdvancesRoles(t: Tables, actor: Actor, root: Id, c: Command, now: Time)
    requires TablesOk(t) && FreshIds(t, c)
    ensures RolesAdvance(t, After(t, actor, root, c, now))
  {
    hide TablesOk, AuthorizedAtRoot, AssignmentsValid, DelegationOk, FinalOwnerSafe, Insertable, SavedRows, NoRepeats, CodeFree,
         RoleChecks, PreviewFingerprint, BumpHolders;
  }

  lemma {:induction false} RunAdvancesRoles(t: Tables, root: Id, now: Time, run: seq<Entry>)
    requires TablesOk(t) && RunFrom(t, root, now, run)
    ensures RolesAdvance(t, Final(t, root, now, run).0)
    decreases run
  {
    hide TablesOk, After, FreshIds;
    if run != [] {
      var e := run[0];
      CommandAdvancesRoles(t, e.actor, root, e.command, e.at);
      RunAdvancesRoles(After(t, e.actor, root, e.command, e.at), root, e.at, run[1..]);
    }
  }

  /** An update that is accepted on the fingerprint of an earlier preview writes what was
      previewed: the same proposal, for the same state of the membership, on roles that no
      command of the run in between has changed. */
  lemma AcceptedUpdateWasPreviewed(t: Tables, root: Id, now: Time, run: seq<Entry>, viewer: Actor, viewed: Id, seen: nat,
                                   shown: seq<Proposed>, actor: Actor, member: Id, v: nat, proposed: seq<Proposed>, ids: seq<Id>)
    requires TablesOk(t) && RunFrom(t, root, now, run) && |ids| == |proposed|
    requires var (last, end) := Final(t, root, now, run);
             && WellFormed(last.tree)
             && UpdateAccess(last, actor, member, v, PreviewFingerprint(t, viewer, viewed, seen, shown), proposed, ids, root,
                             end).Ok?
    ensures var (last, end) := Final(t, root, now, run);
            && viewed == member && shown == proposed && viewer.authVersion == actor.authVersion
            && member in last.members && last.members[member].version == seen
            && (forall p <- proposed :: p.roleId in t.roles && p.roleId in last.roles && last.roles[p.roleId] == t.roles[p.roleId])
  {
    hide TablesOk, RunFrom, Final, WellFormed, AuthorizedAtRoot, DelegationOk, FinalOwnerSafe, Insertable, SavedRows, Largest;
    RunAdvancesRoles(t, root, now, run);
    var (last, end) := Final(t, root, now, run);
    var was, still := PreviewFingerprint(t, viewer, viewed, seen, shown), PreviewFingerprint(last, actor, member, v, proposed);
    forall p | p in proposed ensures p.roleId in t.roles && last.roles[p.roleId] == t.roles[p.roleId] {
      assert p.roleId in still.roleVersions && p.roleId in was.roleVersions;
      assert was.roleVersions[p.roleId] == still.roleVersions[p.roleId];
    }
  }
}
