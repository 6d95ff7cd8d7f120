/** The access tables of one tenant, the rows policy decisions are made from, and the
    two forms of the decision: the oracle for one resource and the predicate that
    selects the records of a list. */
module AccessTables {
  import opened Basics
  import opened Policy
  import opened ScopeTree

  datatype Status = Invited | Active | Suspended

  datatype Audience = Internal | VendorPortal | DriverPortal | ClientPortal

  datatype CatalogueEntry = CatalogueEntry(active: bool, delegable: bool, introduced: nat)

  datatype Role = Role(code: string, protected: bool, active: bool, version: nat, audiences: set<Audience>,
                       capabilities: seq<string>)

  datatype GrantRow = GrantRow(nodeId: Id, action: ScopeAction, active: bool, from: Time, to: Option<Time>)

  datatype AssignmentRow = AssignmentRow(id: Id, roleId: Id, active: bool, from: Time, to: Option<Time>,
                                         grants: seq<GrantRow>)

  datatype Member = Member(userId: Option<Id>, status: Status, audience: Audience, authVersion: nat, version: nat,
                           assignments: seq<AssignmentRow>)

  datatype Tables = Tables(tenantId: Id, tree: Tree, catalogue: map<string, CatalogueEntry>,
                           roles: map<Id, Role>, members: map<Id, Member>)

  /** Foreign keys: grants point into the tree and assignments at roles. */
  ghost predicate RowOk(t: Tables, row: AssignmentRow) {
    row.roleId in t.roles && forall g <- row.grants :: g.nodeId in t.tree
  }

  /** No two assignment rows of a member share their key. */
  ghost predicate DistinctIds(rows: seq<AssignmentRow>) {
    forall i, j :: 0 <= i < j < |rows| ==> rows[i].id != rows[j].id
  }

  ghost predicate MemberOk(t: Tables, m: Member) {
    DistinctIds(m.assignments) && forall row <- m.assignments :: RowOk(t, row)
  }

  ghost predicate TablesOk(t: Tables) {
    WellFormed(t.tree) && forall m <- t.members :: MemberOk(t, t.members[m])
  }

  predicate Effective(active: bool, from: Time, to: Option<Time>, now: Time) {
    active && from <= now && (to.None? || to.value > now)
  }

  // ---------------------------------------------------------------------------
  // Rows for the oracle
  // ---------------------------------------------------------------------------

  function LiveCapabilities(t: Tables, codes: seq<string>): seq<string> {
    if codes == [] then []
    else
      (if codes[0] in t.catalogue && t.catalogue[codes[0]].active then [codes[0]] else []) +
      LiveCapabilities(t, codes[1..])
  }

  /** The scope type of a grant's node is joined only while the node is active. */
  function PolicyGrant(t: Tables, g: GrantRow): Grant {
    Grant(g.nodeId,
          if g.nodeId in t.tree && t.tree[g.nodeId].active then Some(t.tree[g.nodeId].scopeType) else None,
          g.action, true, g.to)
  }

  function PolicyGrants(t: Tables, rows: seq<GrantRow>, now: Time): seq<Grant> {
    if rows == [] then []
    else
      (if Effective(rows[0].active, rows[0].from, rows[0].to, now) then [PolicyGrant(t, rows[0])] else []) +
      PolicyGrants(t, rows[1..], now)
  }

  predicate AssignmentLive(t: Tables, row: AssignmentRow, now: Time) {
    && Effective(row.active, row.from, row.to, now)
    && row.roleId in t.roles && t.roles[row.roleId].active
  }

  function PolicyAssignment(t: Tables, row: AssignmentRow, now: Time): Assignment
    requires row.roleId in t.roles
  {
    Assignment(row.id, true, LiveCapabilities(t, t.roles[row.roleId].capabilities), PolicyGrants(t, row.grants, now))
  }

  function PolicyRows(t: Tables, rows: seq<AssignmentRow>, now: Time): seq<Assignment> {
    if rows == [] then []
    else
      (if AssignmentLive(t, rows[0], now) then [PolicyAssignment(t, rows[0], now)] else []) +
      PolicyRows(t, rows[1..], now)
  }

  function PolicyData(t: Tables, member: Id, now: Time): seq<Assignment>
    requires member in t.members
  {
    PolicyRows(t, t.members[member].assignments, now)
  }

  function DecisionInput(t: Tables, member: Id, userId: Id, current: bool, capability: string, action: ScopeAction,
                         resource: Resource, now: Time): Input
    requires WellFormed(t.tree) && member in t.members
  {
    var blocked := && t.members[member].audience.DriverPortal?
                   && resource.requiresCurrentAssignment
                   && resource.assignedUserId != Some(userId);
    Input(t.tenantId, userId, capability, action, PolicyData(t, member, now), resource,
          Ancestors(t.tree, resource.nodeIds), Gates(true, true, current, false, false, blocked), now)
  }

  /** The decision for one resource; current says that the actor's session still is. */
  function Decide(t: Tables, member: Id, userId: Id, current: bool, capability: string, action: ScopeAction,
                  resource: Resource, now: Time): Decision
    requires WellFormed(t.tree) && member in t.members
  {
    Evaluate(DecisionInput(t, member, userId, current, capability, action, resource, now))
  }

  lemma {:induction false} LiveCapabilitiesMember(t: Tables, codes: seq<string>, c: string)
    ensures c in LiveCapabilities(t, codes) <==> c in codes && c in t.catalogue && t.catalogue[c].active
  {
    if codes != [] {
      LiveCapabilitiesMember(t, codes[1..], c);
      assert codes == [codes[0]] + codes[1..];
    }
  }

  lemma {:induction false} PolicyGrantsMember(t: Tables, rows: seq<GrantRow>, now: Time, p: Grant)
    ensures p in PolicyGrants(t, rows, now) <==>
      exists g <- rows :: Effective(g.active, g.from, g.to, now) && p == PolicyGrant(t, g)
  {
    if rows != [] {
      PolicyGrantsMember(t, rows[1..], now, p);
      assert rows == [rows[0]] + rows[1..];
    }
  }

  lemma {:induction false} PolicyRowsMember(t: Tables, rows: seq<AssignmentRow>, now: Time, a: Assignment)
    ensures a in PolicyRows(t, rows, now) <==>
      exists row <- rows :: AssignmentLive(t, row, now) && a == PolicyAssignment(t, row, now)
  {
    if rows != [] {
      PolicyRowsMember(t, rows[1..], now, a);
      assert rows == [rows[0]] + rows[1..];
    }
  }

  // ---------------------------------------------------------------------------
  // What a member's rows permit, stated on the rows
  // ---------------------------------------------------------------------------

  ghost predicate RowCarries(t: Tables, row: AssignmentRow, capability: string, now: Time) {
    && AssignmentLive(t, row, now)
    && capability in t.roles[row.roleId].capabilities
    && capability in t.catalogue && t.catalogue[capability].active
  }

  ghost predicate GrantLive(g: GrantRow, action: ScopeAction, now: Time) {
    Effective(g.active, g.from, g.to, now) && ActionMatches(g.action, action)
  }

  /** Some node of the record lies at or below the grant's node: the recursive subquery. */
  ghost predicate GrantReaches(t: Tables, g: GrantRow, nodeIds: seq<Id>) {
    exists n <- nodeIds :: Above(t.tree, n, g.nodeId)
  }

  /** The oracle's trip rule, in terms of the grant's row. */
  ghost predicate OracleRefusesTrip(t: Tables, g: GrantRow, userId: Id, r: Resource) {
    && g.nodeId in t.tree && t.tree[g.nodeId].active && t.tree[g.nodeId].scopeType.AssignedTrip?
    && r.requiresCurrentAssignment && r.assignedUserId != Some(userId)
  }

  ghost predicate RowPermits(t: Tables, row: AssignmentRow, userId: Id, capability: string, action: ScopeAction,
                             r: Resource, now: Time) {
    && RowCarries(t, row, capability, now)
    && exists g <- row.grants ::
         GrantLive(g, action, now) && GrantReaches(t, g, r.nodeIds) && !OracleRefusesTrip(t, g, userId, r)
  }

  ghost predicate MemberPermits(t: Tables, member: Id, userId: Id, capability: string, action: ScopeAction,
                                r: Resource, now: Time)
    requires member in t.members
  {
    exists row <- t.members[member].assignments :: RowPermits(t, row, userId, capability, action, r, now)
  }

  lemma ReachesMeansAbove(t: Tables, g: GrantRow, nodeIds: seq<Id>, n: Id, ancestors: map<Id, seq<Id>>)
    requires WellFormed(t.tree) && g.nodeId in t.tree && n in nodeIds
    requires ancestors == Ancestors(t.tree, nodeIds)
    ensures Above(t.tree, n, g.nodeId) <==> n == g.nodeId || (n in ancestors && g.nodeId in ancestors[n])
  {
    if n in t.tree {
      AncestorsAreWhatLiesAbove(t.tree, nodeIds, n, g.nodeId);
      assert Up(t.tree, n, 0) == Some(n);
    }
  }

  lemma GrantPermitsIff(t: Tables, g: GrantRow, input: Input)
    requires WellFormed(t.tree) && g.nodeId in t.tree
    requires input.ancestorsByNode == Ancestors(t.tree, input.resource.nodeIds)
    requires Effective(g.active, g.from, g.to, input.now)
    ensures Permits(PolicyGrant(t, g), input) <==>
      && GrantLive(g, input.action, input.now) && GrantReaches(t, g, input.resource.nodeIds)
      && !OracleRefusesTrip(t, g, input.userId, input.resource)
  {
    hide WellFormed, Ancestors, Above;
    var p := PolicyGrant(t, g);
    forall n | n in input.resource.nodeIds
      ensures Above(t.tree, n, g.nodeId) <==> n == p.nodeId || p.nodeId in AncestorsOf(input, n)
    {
      ReachesMeansAbove(t, g, input.resource.nodeIds, n, input.ancestorsByNode);
    }
    assert Reaches(p, input) <==> GrantReaches(t, g, input.resource.nodeIds);
  }

  lemma RowPermitsIff(t: Tables, row: AssignmentRow, input: Input)
    requires WellFormed(t.tree) && RowOk(t, row) && AssignmentLive(t, row, input.now)
    requires input.ancestorsByNode == Ancestors(t.tree, input.resource.nodeIds)
    ensures PermittedBy(input, PolicyAssignment(t, row, input.now)) <==>
      RowPermits(t, row, input.userId, input.capability, input.action, input.resource, input.now)
  {
    hide Permits, GrantReaches, OracleRefusesTrip, PolicyGrant, Ancestors;
    var a := PolicyAssignment(t, row, input.now);
    LiveCapabilitiesMember(t, t.roles[row.roleId].capabilities, input.capability);
    if p :| p in a.grants && Permits(p, input) {
      PolicyGrantsMember(t, row.grants, input.now, p);
      var g :| g in row.grants && Effective(g.active, g.from, g.to, input.now) && p == PolicyGrant(t, g);
      GrantPermitsIff(t, g, input);
    }
    if g :| && g in row.grants
            && GrantLive(g, input.action, input.now) && GrantReaches(t, g, input.resource.nodeIds)
            && !OracleRefusesTrip(t, g, input.userId, input.resource)
    {
      GrantPermitsIff(t, g, input);
      PolicyGrantsMember(t, row.grants, input.now, PolicyGrant(t, g));
    }
  }

  lemma PermittedIffMemberPermits(t: Tables, member: Id, input: Input)
    requires TablesOk(t) && member in t.members
    requires input.assignments == PolicyData(t, member, input.now)
    requires input.ancestorsByNode == Ancestors(t.tree, input.resource.nodeIds)
    ensures Permitted(input) <==>
      MemberPermits(t, member, input.userId, input.capability, input.action, input.resource, input.now)
  {
    hide PermittedBy, PolicyAssignment, Ancestors, WellFormed, RowOk;
    var rows := t.members[member].assignments;
    if Permitted(input) {
      var a :| a in input.assignments && PermittedBy(input, a);
      PolicyRowsMember(t, rows, input.now, a);
      var row :| row in rows && AssignmentLive(t, row, input.now) && a == PolicyAssignment(t, row, input.now);
      RowPermitsIff(t, row, input);
    }
    if MemberPermits(t, member, input.userId, input.capability, input.action, input.resource, input.now) {
      var row :| row in rows
        && RowPermits(t, row, input.userId, input.capability, input.action, input.resource, input.now);
      PolicyRowsMember(t, rows, input.now, PolicyAssignment(t, row, input.now));
      RowPermitsIff(t, row, input);
    }
  }

  /** The oracle over the joined rows decides exactly what the rows permit. */
  lemma DecideMeaning(t: Tables, member: Id, userId: Id, current: bool, capability: string, action: ScopeAction,
                      r: Resource, now: Time)
    requires TablesOk(t) && member in t.members && r.tenantId == t.tenantId
    ensures Decide(t, member, userId, current, capability, action, r, now).Allow? <==>
      && current
      && !(t.members[member].audience.DriverPortal? && r.requiresCurrentAssignment && r.assignedUserId != Some(userId))
      && CapabilityAllowsAction(capability, action)
      && MemberPermits(t, member, userId, capability, action, r, now)
  {
    hide CapabilityAllowsAction, MemberPermits, Permitted, Evaluate;
    var input := DecisionInput(t, member, userId, current, capability, action, r, now);
    EvaluateMeaning(input);
    PermittedIffMemberPermits(t, member, input);
  }
}
