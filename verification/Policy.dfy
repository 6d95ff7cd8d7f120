/** The deny-by-default policy oracle: the search as the nested loops run it, and the
    declarative rule it decides. */
module Policy {
  import opened Basics

  datatype ScopeAction = Read | Create | Update | Approve | Export | Admin

  datatype ScopeType = Tenant | LegalEntity | Region | Branch | Client | Location | Vendor | AssignedTrip

  datatype Grant = Grant(nodeId: Id, scopeType: Option<ScopeType>, action: ScopeAction, active: bool,
                         expiresAt: Option<Time>)

  datatype Assignment = Assignment(id: Id, active: bool, capabilities: seq<string>, grants: seq<Grant>)

  datatype Resource = Resource(tenantId: Id, nodeIds: seq<Id>, assignedUserId: Option<Id>,
                               requiresCurrentAssignment: bool)

  datatype Gates = Gates(identityActive: bool, membershipActive: bool, sessionCurrent: bool,
                         mfaRequired: bool, mfaSatisfied: bool, policyBlocked: bool)

  datatype Input = Input(tenantId: Id, userId: Id, capability: string, action: ScopeAction,
                         assignments: seq<Assignment>, resource: Resource,
                         ancestorsByNode: map<Id, seq<Id>>, gates: Gates, now: Time)

  datatype Reason =
    | Allowed | Inactive | SessionStale | MfaRequired | PolicyBlocked | CapabilityMissing | ScopeMismatch

  /** An allowing decision names the assignment and the node of the grant that allowed it. */
  datatype Decision = Allow(assignmentId: Id, grantNodeId: Id) | Deny(why: Reason)
  {
    function Reason(): Reason {
      if Allow? then Allowed else why
    }
  }

  const CAPABILITY_ACTIONS: map<string, ScopeAction> := map[
    "identity.user.read" := Read,
    "identity.user.admin" := Admin,
    "identity.role.read" := Read,
    "identity.role.admin" := Admin,
    "identity.session.admin" := Admin,
    "identity.mfa.admin" := Admin,
    "identity.report.read" := Read,
    "identity.audit.read" := Read,
    "probe.read" := Read,
    "probe.create" := Create,
    "probe.update" := Update,
    "probe.approve" := Approve,
    "probe.export" := Export
  ]

  predicate CapabilityAllowsAction(capability: string, action: ScopeAction) {
    if HasPrefix(capability, "sensitive.") && HasSuffix(capability, ".read") then action == Read
    else capability in CAPABILITY_ACTIONS && CAPABILITY_ACTIONS[capability] == action
  }

  function ActionForCapability(capability: string): ScopeAction {
    if HasSuffix(capability, ".create") then Create
    else if HasSuffix(capability, ".update") then Update
    else if HasSuffix(capability, ".approve") then Approve
    else if HasSuffix(capability, ".export") then Export
    else if HasSuffix(capability, ".admin") then Admin
    else Read
  }

  predicate ActionMatches(granted: ScopeAction, requested: ScopeAction) {
    granted == requested || granted == Admin
  }

  function AncestorsOf(input: Input, node: Id): seq<Id> {
    if node in input.ancestorsByNode then input.ancestorsByNode[node] else []
  }

  // ---------------------------------------------------------------------------
  // The search
  // ---------------------------------------------------------------------------

  predicate Live(grant: Grant, input: Input) {
    && grant.active
    && !(grant.expiresAt.Some? && grant.expiresAt.value <= input.now)
    && ActionMatches(grant.action, input.action)
  }

  predicate Reaches(grant: Grant, input: Input) {
    exists n <- input.resource.nodeIds :: n == grant.nodeId || grant.nodeId in AncestorsOf(input, n)
  }

  predicate TripRefused(grant: Grant, input: Input) {
    && grant.scopeType == Some(AssignedTrip)
    && input.resource.requiresCurrentAssignment
    && input.resource.assignedUserId != Some(input.userId)
  }

  predicate Carries(assignment: Assignment, input: Input) {
    assignment.active && input.capability in assignment.capabilities
  }

  predicate Permits(grant: Grant, input: Input) {
    Live(grant, input) && Reaches(grant, input) && !TripRefused(grant, input)
  }

  function Gate(input: Input): Option<Reason> {
    if !input.gates.identityActive || !input.gates.membershipActive then Some(Inactive)
    else if !input.gates.sessionCurrent then Some(SessionStale)
    else if input.gates.mfaRequired && !input.gates.mfaSatisfied then Some(MfaRequired)
    else if input.gates.policyBlocked then Some(PolicyBlocked)
    else if input.resource.tenantId != input.tenantId then Some(ScopeMismatch)
    else if !CapabilityAllowsAction(input.capability, input.action) then Some(CapabilityMissing)
    else None
  }

  function FirstGrant(input: Input, grants: seq<Grant>, j: nat): Option<Id>
    requires j <= |grants|
    decreases |grants| - j
  {
    if j == |grants| then None
    else if Permits(grants[j], input) then Some(grants[j].nodeId)
    else FirstGrant(input, grants, j + 1)
  }

  function FirstMatch(input: Input, i: nat): Option<Decision>
    requires i <= |input.assignments|
    decreases |input.assignments| - i
  {
    if i == |input.assignments| then None
    else
      var assignment := input.assignments[i];
      var found := if Carries(assignment, input) then FirstGrant(input, assignment.grants, 0) else None;
      match found
      case Some(node) => Some(Allow(assignment.id, node))
      case None => FirstMatch(input, i + 1)
  }

  predicate SomeCarries(input: Input) {
    exists a <- input.assignments :: Carries(a, input)
  }

  function Evaluate(input: Input): Decision {
    match Gate(input)
    case Some(reason) => Deny(reason)
    case None =>
      match FirstMatch(input, 0)
      case Some(decision) => decision
      case None => Deny(if SomeCarries(input) then ScopeMismatch else CapabilityMissing)
  }

  method EvaluatePolicy(input: Input) returns (decision: Decision)
    ensures decision == Evaluate(input)
    ensures decision.Allow? <==> Gate(input).None? && Permitted(input)
  {
    hide Permits, CapabilityAllowsAction;
    EvaluateMeaning(input);
    if Gate(input).Some? {
      return Deny(Gate(input).value);
    }
    var capabilityFound := false;
    for i := 0 to |input.assignments|
      invariant FirstMatch(input, 0) == FirstMatch(input, i)
      invariant capabilityFound <==> exists a <- input.assignments[..i] :: Carries(a, input)
    {
      var assignment := input.assignments[i];
      assert input.assignments[..i + 1] == input.assignments[..i] + [assignment];
      if !assignment.active || input.capability !in assignment.capabilities {
        continue;
      }
      capabilityFound := true;
      for j := 0 to |assignment.grants|
        invariant FirstGrant(input, assignment.grants, 0) == FirstGrant(input, assignment.grants, j)
      {
        if Permits(assignment.grants[j], input) {
          return Allow(assignment.id, assignment.grants[j].nodeId);
        }
      }
    }
    assert input.assignments[..|input.assignments|] == input.assignments;
    decision := Deny(if capabilityFound then ScopeMismatch else CapabilityMissing);
  }

  // ---------------------------------------------------------------------------
  // The rule
  // ---------------------------------------------------------------------------

  predicate PermittedBy(input: Input, a: Assignment) {
    Carries(a, input) && exists g <- a.grants :: Permits(g, input)
  }

  predicate Permitted(input: Input) {
    exists a <- input.assignments :: PermittedBy(input, a)
  }

  lemma {:induction false} FirstGrantMeaning(input: Input, grants: seq<Grant>, j: nat)
    requires j <= |grants|
    ensures FirstGrant(input, grants, j).Some? <==> exists k :: j <= k < |grants| && Permits(grants[k], input)
    ensures FirstGrant(input, grants, j).Some? ==>
      exists g <- grants :: Permits(g, input) && g.nodeId == FirstGrant(input, grants, j).value
    decreases |grants| - j
  {
    hide Permits;
    if j < |grants| {
      FirstGrantMeaning(input, grants, j + 1);
      if Permits(grants[j], input) {
        assert grants[j] in grants;
      }
    }
  }

  /** The decision's references name an assignment and a grant that permit the request. */
  predicate Names(input: Input, decision: Decision)
    requires decision.Allow?
  {
    exists a <- input.assignments ::
      && a.id == decision.assignmentId && Carries(a, input)
      && exists g <- a.grants :: g.nodeId == decision.grantNodeId && Permits(g, input)
  }

  lemma {:induction false} FirstMatchMeaning(input: Input, i: nat)
    requires i <= |input.assignments|
    ensures FirstMatch(input, i).Some? <==>
      exists k :: i <= k < |input.assignments| && PermittedBy(input, input.assignments[k])
    ensures FirstMatch(input, i).Some? ==> FirstMatch(input, i).value.Allow? && Names(input, FirstMatch(input, i).value)
    decreases |input.assignments| - i
  {
    hide Permits;
    if i < |input.assignments| {
      var a := input.assignments[i];
      FirstMatchMeaning(input, i + 1);
      FirstGrantMeaning(input, a.grants, 0);
      if Carries(a, input) && FirstGrant(input, a.grants, 0).Some? {
        assert a in input.assignments;
      }
    }
  }

  /** Allowed exactly when every gate is open and some carried grant permits; the reason
      is the first closed gate, or tells a missing capability from a missing scope. */
  lemma EvaluateMeaning(input: Input)
    ensures Evaluate(input).Allow? <==> Gate(input).None? && Permitted(input)
    ensures Evaluate(input).Allow? ==> Names(input, Evaluate(input))
    ensures Evaluate(input).Reason() ==
      if Gate(input).Some? then Gate(input).value
      else if Permitted(input) then Allowed
      else if SomeCarries(input) then ScopeMismatch
      else CapabilityMissing
  {
    hide PermittedBy, Gate;
    FirstMatchMeaning(input, 0);
    if Permitted(input) {
      var a :| a in input.assignments && PermittedBy(input, a);
      var k :| 0 <= k < |input.assignments| && input.assignments[k] == a;
    }
  }

  // ---------------------------------------------------------------------------
  // Order and monotonicity
  // ---------------------------------------------------------------------------

  /** h grants at least what g grants; the scope type matters only where a current
      assignment is demanded. */
  predicate GrantCovered(g: Grant, h: Grant, currentAssignment: bool) {
    && g.nodeId == h.nodeId && g.action == h.action
    && (g.active ==> h.active)
    && (h.expiresAt.None? || (g.expiresAt.Some? && g.expiresAt.value <= h.expiresAt.value))
    && (currentAssignment ==> g.scopeType == h.scopeType)
  }

  ghost predicate AssignmentCovered(a: Assignment, b: Assignment, currentAssignment: bool) {
    && (a.active ==> b.active)
    && (forall c <- a.capabilities :: c in b.capabilities)
    && (forall g <- a.grants :: exists h <- b.grants :: GrantCovered(g, h, currentAssignment))
  }

  ghost predicate Covered(xs: seq<Assignment>, ys: seq<Assignment>, currentAssignment: bool) {
    forall a <- xs :: exists b <- ys :: AssignmentCovered(a, b, currentAssignment)
  }

  ghost predicate AncestorsCovered(m: map<Id, seq<Id>>, n: map<Id, seq<Id>>) {
    forall k <- m :: k in n && forall x <- m[k] :: x in n[k]
  }

  /** The same request, possibly against more assignments, grants and ancestors. */
  ghost predicate AtLeastAsWide(narrow: Input, wide: Input) {
    && wide == narrow.(assignments := wide.assignments, ancestorsByNode := wide.ancestorsByNode)
    && Covered(narrow.assignments, wide.assignments, narrow.resource.requiresCurrentAssignment)
    && AncestorsCovered(narrow.ancestorsByNode, wide.ancestorsByNode)
  }

  lemma CoveredGrantPermits(narrow: Input, wide: Input, g: Grant, h: Grant)
    requires AtLeastAsWide(narrow, wide)
    requires GrantCovered(g, h, narrow.resource.requiresCurrentAssignment)
    requires Permits(g, narrow)
    ensures Permits(h, wide)
  {
    var n :| n in narrow.resource.nodeIds && (n == g.nodeId || g.nodeId in AncestorsOf(narrow, n));
    assert n in wide.resource.nodeIds;
    if n != g.nodeId {
      assert n in narrow.ancestorsByNode;
      assert g.nodeId in AncestorsOf(wide, n);
    }
  }

  lemma PermittedIsMonotone(narrow: Input, wide: Input)
    requires AtLeastAsWide(narrow, wide) && Permitted(narrow)
    ensures Permitted(wide)
  {
    hide Permits, GrantCovered;
    var a :| a in narrow.assignments && PermittedBy(narrow, a);
    var g :| g in a.grants && Permits(g, narrow);
    var trip := narrow.resource.requiresCurrentAssignment;
    var b :| b in wide.assignments && AssignmentCovered(a, b, trip);
    var h :| h in b.grants && GrantCovered(g, h, trip);
    CoveredGrantPermits(narrow, wide, g, h);
    assert PermittedBy(wide, b);
  }

  /** More assignments, grants or ancestors never turn an allowed request away. */
  lemma AllowedIsMonotone(narrow: Input, wide: Input)
    requires AtLeastAsWide(narrow, wide) && Evaluate(narrow).Allow?
    ensures Evaluate(wide).Allow?
  {
    hide CapabilityAllowsAction;
    EvaluateMeaning(narrow);
    EvaluateMeaning(wide);
    PermittedIsMonotone(narrow, wide);
  }

  /** Inputs that cover each other are decided alike, with the same reason. */
  lemma EquivalentInputsAgree(x: Input, y: Input)
    requires AtLeastAsWide(x, y) && AtLeastAsWide(y, x)
    ensures Evaluate(x).Allow? == Evaluate(y).Allow?
    ensures Evaluate(x).Reason() == Evaluate(y).Reason()
  {
    hide *;
    EvaluateMeaning(x);
    EvaluateMeaning(y);
    SameGate(x, y);
    if Permitted(x) {
      PermittedIsMonotone(x, y);
    }
    if Permitted(y) {
      PermittedIsMonotone(y, x);
    }
    if SomeCarries(x) {
      CarriesIsMonotone(x, y);
    }
    if SomeCarries(y) {
      CarriesIsMonotone(y, x);
    }
  }

  lemma SameGate(x: Input, y: Input)
    requires AtLeastAsWide(x, y)
    ensures Gate(x) == Gate(y)
  {
    hide CapabilityAllowsAction;
  }

  lemma CarriesIsMonotone(narrow: Input, wide: Input)
    requires AtLeastAsWide(narrow, wide) && SomeCarries(narrow)
    ensures SomeCarries(wide)
  {
    hide GrantCovered;
    var a :| a in narrow.assignments && Carries(a, narrow);
    var b :| b in wide.assignments && AssignmentCovered(a, b, narrow.resource.requiresCurrentAssignment);
    assert Carries(b, wide);
  }

  ghost predicate SameUpToGrantOrder(a: Assignment, b: Assignment) {
    b == a.(grants := b.grants) && multiset(a.grants) == multiset(b.grants)
  }

  /** ys holds the assignments of xs in any order, each with its grants in any order. */
  ghost predicate Rearranged(xs: seq<Assignment>, ys: seq<Assignment>) {
    && (forall a <- xs :: exists b <- ys :: SameUpToGrantOrder(a, b))
    && (forall b <- ys :: exists a <- xs :: SameUpToGrantOrder(b, a))
  }

  lemma SameMultisetMembers<T>(s: seq<T>, t: seq<T>, x: T)
    requires multiset(s) == multiset(t) && x in s
    ensures x in t
  {
    assert x in multiset(t);
  }

  lemma RearrangedCovers(xs: seq<Assignment>, ys: seq<Assignment>, trip: bool)
    requires forall a <- xs :: exists b <- ys :: SameUpToGrantOrder(a, b)
    ensures Covered(xs, ys, trip)
  {
    hide SameUpToGrantOrder, AssignmentCovered;
    forall a | a in xs
      ensures exists b <- ys :: AssignmentCovered(a, b, trip)
    {
      var b :| b in ys && SameUpToGrantOrder(a, b);
      RearrangedGrantsCover(a, b, trip);
    }
  }

  lemma RearrangedGrantsCover(a: Assignment, b: Assignment, trip: bool)
    requires SameUpToGrantOrder(a, b)
    ensures AssignmentCovered(a, b, trip)
  {
    forall g | g in a.grants
      ensures exists h <- b.grants :: GrantCovered(g, h, trip)
    {
      SameMultisetMembers(a.grants, b.grants, g);
      assert GrantCovered(g, g, trip);
    }
  }

  /** The order of assignments, and of grants inside them, never changes the outcome. */
  lemma OrderIsIrrelevant(input: Input, ys: seq<Assignment>)
    requires Rearranged(input.assignments, ys)
    ensures Evaluate(input).Allow? == Evaluate(input.(assignments := ys)).Allow?
    ensures Evaluate(input).Reason() == Evaluate(input.(assignments := ys)).Reason()
  {
    hide Evaluate, Covered;
    RearrangedCovers(input.assignments, ys, input.resource.requiresCurrentAssignment);
    RearrangedCovers(ys, input.assignments, input.resource.requiresCurrentAssignment);
    EquivalentInputsAgree(input, input.(assignments := ys));
  }

  // ---------------------------------------------------------------------------
  // The access preview
  // ---------------------------------------------------------------------------

  /** One proposed role with its capabilities and the (node, action) pairs asked for. */
  datatype Proposal = Proposal(roleId: Id, capabilities: seq<string>, grants: seq<(Id, ScopeAction)>)

  const OPEN_GATES := Gates(true, true, true, false, false, false)

  function PreviewAssignment(p: Proposal): Assignment {
    Assignment(p.roleId, true, p.capabilities,
               seq(|p.grants|, i requires 0 <= i < |p.grants| =>
                 Grant(p.grants[i].0, None, p.grants[i].1, true, None)))
  }

  function PreviewInput(tenantId: Id, target: Id, capability: string, proposed: seq<Proposal>, node: Id, now: Time): Input {
    Input(tenantId, target, capability, ActionForCapability(capability),
          seq(|proposed|, i requires 0 <= i < |proposed| => PreviewAssignment(proposed[i])),
          Resource(tenantId, [node], None, false), map[node := []], OPEN_GATES, now)
  }

  /** Some active assignment carries the proposed role's capabilities with live grants
      for all its (node, action) pairs, whatever the scope types. */
  ghost predicate Saved(p: Proposal, assignments: seq<Assignment>) {
    exists a <- assignments ::
      && a.active
      && (forall c <- p.capabilities :: c in a.capabilities)
      && (forall pair <- p.grants :: exists g <- a.grants ::
            g.active && g.expiresAt.None? && g.nodeId == pair.0 && g.action == pair.1)
  }

  lemma SavedIsCovered(p: Proposal, assignments: seq<Assignment>)
    requires Saved(p, assignments)
    ensures exists b <- assignments :: AssignmentCovered(PreviewAssignment(p), b, false)
  {
    var a :| && a in assignments && a.active
             && (forall c <- p.capabilities :: c in a.capabilities)
             && (forall pair <- p.grants :: exists g <- a.grants ::
                   g.active && g.expiresAt.None? && g.nodeId == pair.0 && g.action == pair.1);
    var q := PreviewAssignment(p);
    forall g | g in q.grants
      ensures exists h <- a.grants :: GrantCovered(g, h, false)
    {
      var i :| 0 <= i < |p.grants| && q.grants[i] == g;
      assert p.grants[i] in p.grants;
    }
    assert AssignmentCovered(q, a, false);
  }

  lemma PreviewIsCovered(
      tenantId: Id, target: Id, capability: string, proposed: seq<Proposal>, node: Id, now: Time,
      assignments: seq<Assignment>)
    requires forall p <- proposed :: Saved(p, assignments)
    ensures Covered(PreviewInput(tenantId, target, capability, proposed, node, now).assignments, assignments, false)
  {
    hide Saved, AssignmentCovered, PreviewAssignment;
    var preview := PreviewInput(tenantId, target, capability, proposed, node, now);
    forall a | a in preview.assignments
      ensures exists b <- assignments :: AssignmentCovered(a, b, false)
    {
      var i :| 0 <= i < |proposed| && a == PreviewAssignment(proposed[i]);
      SavedIsCovered(proposed[i], assignments);
    }
  }

  /** Where no current assignment is demanded, nothing but the ancestors of the
      resource's nodes and the assignments decide. */
  lemma TargetIsImmaterial(x: Input, y: Input)
    requires Gate(x).None? && Gate(y).None? && Permitted(x)
    requires x.capability == y.capability && x.action == y.action && x.now == y.now
    requires x.assignments == y.assignments && x.resource.nodeIds == y.resource.nodeIds
    requires !y.resource.requiresCurrentAssignment
    requires forall n <- x.resource.nodeIds, k <- AncestorsOf(x, n) :: k in AncestorsOf(y, n)
    ensures Permitted(y)
  {
    hide Gate;
    var a :| a in x.assignments && PermittedBy(x, a);
    var g :| g in a.grants && Permits(g, x);
    assert Permits(g, y);
    assert PermittedBy(y, a);
  }

  /** A preview without ancestors never promises more than enforcement gives once the
      proposal is saved, under open gates and where no current assignment is demanded. */
  lemma PreviewIsNeverMorePermissive(
      tenantId: Id, target: Id, capability: string, proposed: seq<Proposal>, node: Id, enforced: Input)
    requires enforced.tenantId == tenantId == enforced.resource.tenantId
    requires enforced.capability == capability && enforced.action == ActionForCapability(capability)
    requires enforced.resource.nodeIds == [node] && !enforced.resource.requiresCurrentAssignment
    requires enforced.gates == OPEN_GATES
    requires forall p <- proposed :: Saved(p, enforced.assignments)
    requires Evaluate(PreviewInput(tenantId, target, capability, proposed, node, enforced.now)).Allow?
    ensures Evaluate(enforced).Allow?
  {
    hide Evaluate, Permitted, Covered, CapabilityAllowsAction, ActionForCapability;
    var preview := PreviewInput(tenantId, target, capability, proposed, node, enforced.now);
    PreviewIsCovered(tenantId, target, capability, proposed, node, enforced.now, enforced.assignments);
    var wide := preview.(assignments := enforced.assignments);
    EvaluateMeaning(preview);
    PermittedIsMonotone(preview, wide);
    TargetIsImmaterial(wide, enforced);
    EvaluateMeaning(enforced);
  }
}
