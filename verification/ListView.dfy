/** The set-based list predicate against the per-record oracle. */
module ListView {
  import opened Basics
  import opened Policy
  import opened ScopeTree
  import opened AccessTables

  /** A proof record as both forms see it. */
  datatype Record = Record(nodeIds: seq<Id>, assignedUserId: Option<Id>, isTrip: bool)

  function ResourceOf(t: Tables, p: Record): Resource {
    Resource(t.tenantId, p.nodeIds, p.assignedUserId, p.isTrip)
  }

  predicate OnAssignedTripNode(t: Tables, g: GrantRow) {
    g.nodeId in t.tree && t.tree[g.nodeId].scopeType.AssignedTrip?
  }

  /** The joins and subqueries of the list predicate for one grant row. */
  ghost predicate SelectedBy(t: Tables, member: Id, userId: Id, capability: string, action: ScopeAction, p: Record,
                             row: AssignmentRow, g: GrantRow, now: Time)
    requires member in t.members
  {
    && RowCarries(t, row, capability, now)
    && GrantLive(g, action, now)
    && GrantReaches(t, g, p.nodeIds)
    && (!OnAssignedTripNode(t, g) || p.assignedUserId == Some(userId))
    && (!t.members[member].audience.DriverPortal? || !p.isTrip || p.assignedUserId == Some(userId))
  }

  ghost predicate Selected(t: Tables, member: Id, userId: Id, capability: string, action: ScopeAction, p: Record,
                           now: Time)
    requires member in t.members
  {
    exists row <- t.members[member].assignments, g <- row.grants ::
      SelectedBy(t, member, userId, capability, action, p, row, g, now)
  }

  /** Every record a list selects is allowed by the oracle for the same capability and action. */
  lemma ListRefinesOracle(t: Tables, member: Id, userId: Id, capability: string, action: ScopeAction, p: Record,
                          now: Time)
    requires TablesOk(t) && member in t.members && CapabilityAllowsAction(capability, action)
    requires Selected(t, member, userId, capability, action, p, now)
    ensures Decide(t, member, userId, true, capability, action, ResourceOf(t, p), now).Allow?
  {
    hide Decide, CapabilityAllowsAction, RowCarries, GrantLive, GrantReaches;
    DecideMeaning(t, member, userId, true, capability, action, ResourceOf(t, p), now);
    var row, g :| row in t.members[member].assignments && g in row.grants
                  && SelectedBy(t, member, userId, capability, action, p, row, g, now);
    assert RowPermits(t, row, userId, capability, action, ResourceOf(t, p), now);
  }

  /** Where the two forms read a grant differently: its node is an assigned trip that the
      user does not hold, and the oracle does not look, because the node is inactive or
      the record is not a trip. */
  ghost predicate Overlooked(t: Tables, g: GrantRow, userId: Id, p: Record) {
    && OnAssignedTripNode(t, g)
    && p.assignedUserId != Some(userId)
    && !(t.tree[g.nodeId].active && p.isTrip)
  }

  /** Some permitting grant is read alike by both forms. */
  ghost predicate PlainlyPermitted(t: Tables, member: Id, userId: Id, capability: string, action: ScopeAction,
                                   p: Record, now: Time)
    requires member in t.members
  {
    exists row <- t.members[member].assignments, g <- row.grants ::
      && RowCarries(t, row, capability, now)
      && GrantLive(g, action, now) && GrantReaches(t, g, p.nodeIds)
      && !OracleRefusesTrip(t, g, userId, ResourceOf(t, p))
      && !Overlooked(t, g, userId, p)
  }

  /** The list is the oracle less the records permitted only through overlooked grants. */
  lemma ListIsOracleOnPlainGrants(t: Tables, member: Id, userId: Id, capability: string, action: ScopeAction,
                                  p: Record, now: Time)
    requires TablesOk(t) && member in t.members && CapabilityAllowsAction(capability, action)
    ensures Selected(t, member, userId, capability, action, p, now) <==>
      && Decide(t, member, userId, true, capability, action, ResourceOf(t, p), now).Allow?
      && PlainlyPermitted(t, member, userId, capability, action, p, now)
  {
    hide Decide, CapabilityAllowsAction, RowCarries, GrantLive, GrantReaches;
    DecideMeaning(t, member, userId, true, capability, action, ResourceOf(t, p), now);
    if Selected(t, member, userId, capability, action, p, now) {
      ListRefinesOracle(t, member, userId, capability, action, p, now);
      var row, g :| row in t.members[member].assignments && g in row.grants
                    && SelectedBy(t, member, userId, capability, action, p, row, g, now);
      assert !Overlooked(t, g, userId, p);
    }
    if && Decide(t, member, userId, true, capability, action, ResourceOf(t, p), now).Allow?
       && PlainlyPermitted(t, member, userId, capability, action, p, now)
    {
      var row, g :| && row in t.members[member].assignments && g in row.grants
                    && RowCarries(t, row, capability, now)
                    && GrantLive(g, action, now) && GrantReaches(t, g, p.nodeIds)
                    && !OracleRefusesTrip(t, g, userId, ResourceOf(t, p))
                    && !Overlooked(t, g, userId, p);
      assert SelectedBy(t, member, userId, capability, action, p, row, g, now);
    }
  }

  /** The member's grants sit on active nodes, and those on assigned trips only reach trips. */
  ghost predicate GrantsReadAlike(t: Tables, member: Id, p: Record)
    requires member in t.members
  {
    forall row <- t.members[member].assignments, g <- row.grants ::
      && (g.nodeId in t.tree ==> t.tree[g.nodeId].active)
      && (OnAssignedTripNode(t, g) && GrantReaches(t, g, p.nodeIds) ==> p.isTrip)
  }

  /** Under that condition, which an administrator can check, list and oracle coincide. */
  lemma ListCoincidesWithOracle(t: Tables, member: Id, userId: Id, capability: string, action: ScopeAction, p: Record,
                                now: Time)
    requires TablesOk(t) && member in t.members && CapabilityAllowsAction(capability, action)
    requires GrantsReadAlike(t, member, p)
    ensures Selected(t, member, userId, capability, action, p, now) <==>
      Decide(t, member, userId, true, capability, action, ResourceOf(t, p), now).Allow?
  {
    hide Decide, CapabilityAllowsAction, RowCarries, GrantLive, GrantReaches;
    ListIsOracleOnPlainGrants(t, member, userId, capability, action, p, now);
    DecideMeaning(t, member, userId, true, capability, action, ResourceOf(t, p), now);
    if Decide(t, member, userId, true, capability, action, ResourceOf(t, p), now).Allow? {
      var row :| row in t.members[member].assignments
        && RowPermits(t, row, userId, capability, action, ResourceOf(t, p), now);
      var g :| g in row.grants && GrantLive(g, action, now) && GrantReaches(t, g, p.nodeIds)
               && !OracleRefusesTrip(t, g, userId, ResourceOf(t, p));
      assert !Overlooked(t, g, userId, p);
    }
  }

  // ---------------------------------------------------------------------------
  // When the two forms coincide on every record
  // ---------------------------------------------------------------------------

  /** One of the member's grants that is in force for the capability and action. */
  ghost predicate Carried(t: Tables, member: Id, capability: string, action: ScopeAction, now: Time, g: GrantRow)
    requires member in t.members
  {
    && GrantLive(g, action, now)
    && exists row <- t.members[member].assignments :: g in row.grants && RowCarries(t, row, capability, now)
  }

  /** A grant at or above the same node is in force too, and not on an assigned trip. */
  ghost predicate Covered(t: Tables, member: Id, capability: string, action: ScopeAction, now: Time, g: GrantRow)
    requires member in t.members
  {
    exists h :: Carried(t, member, capability, action, now, h) && !OnAssignedTripNode(t, h) && Above(t.tree, g.nodeId, h.nodeId)
  }

  /** Every grant in force on an assigned trip is covered, or every one on an inactive trip. */
  ghost predicate AllCovered(t: Tables, member: Id, capability: string, action: ScopeAction, now: Time, inactiveOnly: bool)
    requires member in t.members
  {
    forall g :: Carried(t, member, capability, action, now, g) && OnTripNode(t, g, inactiveOnly) ==>
      Covered(t, member, capability, action, now, g)
  }

  predicate OnTripNode(t: Tables, g: GrantRow, inactiveOnly: bool) {
    OnAssignedTripNode(t, g) && (inactiveOnly ==> !t.tree[g.nodeId].active)
  }

  ghost predicate Alike(t: Tables, member: Id, userId: Id, capability: string, action: ScopeAction, now: Time, p: Record)
    requires TablesOk(t) && member in t.members
  {
    Selected(t, member, userId, capability, action, p, now) <==>
    Decide(t, member, userId, true, capability, action, ResourceOf(t, p), now).Allow?
  }

  /** A grant on an assigned trip that nothing covers opens an unassigned record on its node
      to the oracle, and no list shows it. */
  lemma UncoveredTripGrantHides(t: Tables, member: Id, userId: Id, capability: string, action: ScopeAction, now: Time,
                                g: GrantRow, isTrip: bool)
    requires TablesOk(t) && member in t.members && CapabilityAllowsAction(capability, action)
    requires Carried(t, member, capability, action, now, g) && OnTripNode(t, g, isTrip)
    requires !Covered(t, member, capability, action, now, g)
    requires isTrip ==> !t.members[member].audience.DriverPortal?
    ensures Decide(t, member, userId, true, capability, action, ResourceOf(t, Record([g.nodeId], None, isTrip)), now).Allow?
    ensures !Selected(t, member, userId, capability, action, Record([g.nodeId], None, isTrip), now)
  {
    hide Decide, CapabilityAllowsAction, RowCarries, GrantLive, TablesOk, Above;
    var p := Record([g.nodeId], None, isTrip);
    DecideMeaning(t, member, userId, true, capability, action, ResourceOf(t, p), now);
    SelfIsAbove(t.tree, g.nodeId);
    var row :| row in t.members[member].assignments && g in row.grants && RowCarries(t, row, capability, now);
    assert g.nodeId in p.nodeIds && GrantReaches(t, g, p.nodeIds);
    assert RowPermits(t, row, userId, capability, action, ResourceOf(t, p), now);
    forall r, h | r in t.members[member].assignments && h in r.grants
      ensures SelectedBy(t, member, userId, capability, action, p, r, h, now) ==> Carried(t, member, capability, action, now, h)
    {
    }
  }

  lemma SelfIsAbove(tree: Tree, n: Id)
    requires n in tree
    ensures Above(tree, n, n)
  {
    assert Up(tree, n, 0) == Some(n);
  }

  lemma CoverReaches(t: Tables, g: GrantRow, h: GrantRow, nodeIds: seq<Id>)
    requires WellFormed(t.tree) && GrantReaches(t, g, nodeIds) && Above(t.tree, g.nodeId, h.nodeId)
    ensures GrantReaches(t, h, nodeIds)
  {
    hide WellFormed, Above;
    var n :| n in nodeIds && Above(t.tree, n, g.nodeId);
    AboveIsTransitive(t.tree, n, g.nodeId, h.nodeId);
  }

  /** A covered grant hides nothing: what it reaches is reached by the grant that covers it. */
  lemma CoveredGrantsAreAlike(t: Tables, member: Id, userId: Id, capability: string, action: ScopeAction, now: Time, p: Record)
    requires TablesOk(t) && member in t.members && CapabilityAllowsAction(capability, action)
    requires AllCovered(t, member, capability, action, now, p.isTrip) || (p.isTrip && t.members[member].audience.DriverPortal?)
    ensures Alike(t, member, userId, capability, action, now, p)
  {
    hide Decide, CapabilityAllowsAction, RowCarries, GrantLive, GrantReaches, Above, WellFormed, MemberOk;
    DecideMeaning(t, member, userId, true, capability, action, ResourceOf(t, p), now);
    if Selected(t, member, userId, capability, action, p, now) {
      ListRefinesOracle(t, member, userId, capability, action, p, now);
    }
    if Decide(t, member, userId, true, capability, action, ResourceOf(t, p), now).Allow? {
      var row :| row in t.members[member].assignments
        && RowPermits(t, row, userId, capability, action, ResourceOf(t, p), now);
      var g :| g in row.grants && GrantLive(g, action, now) && GrantReaches(t, g, p.nodeIds)
               && !OracleRefusesTrip(t, g, userId, ResourceOf(t, p));
      assert Carried(t, member, capability, action, now, g);
      if Overlooked(t, g, userId, p) {
        var h :| Carried(t, member, capability, action, now, h) && !OnAssignedTripNode(t, h) && Above(t.tree, g.nodeId, h.nodeId);
        CoverReaches(t, g, h, p.nodeIds);
        var r :| r in t.members[member].assignments && h in r.grants && RowCarries(t, r, capability, now);
        assert SelectedBy(t, member, userId, capability, action, p, r, h, now);
      } else {
        assert SelectedBy(t, member, userId, capability, action, p, row, g, now);
      }
    }
  }

  /** List and oracle coincide on every record exactly when each grant in force on an
      assigned trip is covered by one that is not on a trip. */
  lemma ListCoincidesEverywhereIff(t: Tables, member: Id, userId: Id, capability: string, action: ScopeAction, now: Time)
    requires TablesOk(t) && member in t.members && CapabilityAllowsAction(capability, action)
    ensures (forall p :: Alike(t, member, userId, capability, action, now, p)) <==>
            AllCovered(t, member, capability, action, now, false)
  {
    hide Decide, CapabilityAllowsAction, Carried, Covered, Selected, TablesOk;
    if AllCovered(t, member, capability, action, now, false) {
      forall p ensures Alike(t, member, userId, capability, action, now, p) {
        if p.isTrip { assert AllCovered(t, member, capability, action, now, true); }
        CoveredGrantsAreAlike(t, member, userId, capability, action, now, p);
      }
    } else {
      var g :| Carried(t, member, capability, action, now, g) && OnTripNode(t, g, false)
               && !Covered(t, member, capability, action, now, g);
      UncoveredTripGrantHides(t, member, userId, capability, action, now, g, false);
      assert !Alike(t, member, userId, capability, action, now, Record([g.nodeId], None, false));
    }
  }

  /** On trips alone only grants on inactive trips need a cover, and in the driver portal,
      where an unassigned trip is refused anyway, none do. */
  lemma ListCoincidesOnTripsIff(t: Tables, member: Id, userId: Id, capability: string, action: ScopeAction, now: Time)
    requires TablesOk(t) && member in t.members && CapabilityAllowsAction(capability, action)
    ensures (forall p: Record :: p.isTrip ==> Alike(t, member, userId, capability, action, now, p)) <==>
            t.members[member].audience.DriverPortal? || AllCovered(t, member, capability, action, now, true)
  {
    hide Decide, CapabilityAllowsAction, Carried, Covered, Selected, TablesOk;
    if t.members[member].audience.DriverPortal? || AllCovered(t, member, capability, action, now, true) {
      forall p: Record | p.isTrip ensures Alike(t, member, userId, capability, action, now, p) {
        CoveredGrantsAreAlike(t, member, userId, capability, action, now, p);
      }
    } else {
      var g :| Carried(t, member, capability, action, now, g) && OnTripNode(t, g, true)
               && !Covered(t, member, capability, action, now, g);
      UncoveredTripGrantHides(t, member, userId, capability, action, now, g, true);
      assert !Alike(t, member, userId, capability, action, now, Record([g.nodeId], None, true));
    }
  }
}
