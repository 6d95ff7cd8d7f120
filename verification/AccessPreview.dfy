/** The access preview from end to end: what it promises for a proposal, the member has once
    an update that was accepted on it is committed. */
module AccessPreview {
  import opened Basics
  import opened Policy
  import opened ScopeTree
  import opened AccessTables
  import opened AccessCommands
  import opened FinalOwner
  import Delegation

  // ---------------------------------------------------------------------------
  // The preview of a proposal on the tables
  // ---------------------------------------------------------------------------

  function Pairs(grants: seq<ProposedGrant>): seq<(Id, ScopeAction)> {
    if grants == [] then []
    else
      var last := grants[|grants| - 1];
      Pairs(grants[..|grants| - 1]) + seq(|last.actions|, i requires 0 <= i < |last.actions| => (last.nodeId, last.actions[i]))
  }

  /** The proposed role with the capabilities it has now, if it is active. */
  function Previewed(t: Tables, p: Proposed): Proposal {
    Proposal(p.roleId,
             if p.roleId in t.roles && t.roles[p.roleId].active then LiveCapabilities(t, t.roles[p.roleId].capabilities) else [],
             Pairs(p.grants))
  }

  function AllPreviewed(t: Tables, proposed: seq<Proposed>): seq<Proposal> {
    seq(|proposed|, i requires 0 <= i < |proposed| => Previewed(t, proposed[i]))
  }

  /** The decision the preview shows for a capability on a node. */
  function PreviewDecision(t: Tables, target: Id, capability: string, proposed: seq<Proposed>, node: Id, at: Time): Decision {
    Evaluate(PreviewInput(t.tenantId, target, capability, AllPreviewed(t, proposed), node, at))
  }

  // ---------------------------------------------------------------------------
  // What an update saves
  // ---------------------------------------------------------------------------

  lemma {:induction false} PairsAreSaved(grants: seq<ProposedGrant>, now: Time, pair: (Id, ScopeAction))
    requires pair in Pairs(grants)
    ensures GrantRow(pair.0, pair.1, true, now, None) in SavedGrants(grants, now)
  {
    var last, front := grants[|grants| - 1], grants[..|grants| - 1];
    if pair in Pairs(front) {
      PairsAreSaved(front, now, pair);
    } else {
      DistinctMembers(last.actions, pair.1);
      var i :| 0 <= i < |Distinct(last.actions)| && Distinct(last.actions)[i] == pair.1;
      assert ActionRows(last.nodeId, Distinct(last.actions), now)[i] == GrantRow(pair.0, pair.1, true, now, None);
    }
  }

  ghost predicate HasPair(a: Assignment, pair: (Id, ScopeAction)) {
    exists g <- a.grants :: g.active && g.expiresAt.None? && g.nodeId == pair.0 && g.action == pair.1
  }

  lemma SavedRowHasPairs(t: Tables, p: Proposed, id: Id, now: Time, later: Time, pair: (Id, ScopeAction))
    requires p.roleId in t.roles && now <= later && pair in Pairs(p.grants)
    ensures HasPair(PolicyAssignment(t, SavedRow(p, id, now), later), pair)
  {
    var row, g := SavedRow(p, id, now), GrantRow(pair.0, pair.1, true, now, None);
    PairsAreSaved(p.grants, now, pair);
    PolicyGrantsMember(t, row.grants, later, PolicyGrant(t, g));
    assert PolicyGrant(t, g) in PolicyAssignment(t, row, later).grants;
  }

  /** A saved proposal is saved in the sense of the policy. */
  lemma ProposalIsSaved(t: Tables, rows: seq<AssignmentRow>, p: Proposed, id: Id, now: Time, later: Time)
    requires p.roleId in t.roles && t.roles[p.roleId].active && now <= later && SavedRow(p, id, now) in rows
    ensures Saved(Previewed(t, p), PolicyRows(t, rows, later))
  {
    hide LiveCapabilities, Pairs, SavedGrants, PolicyGrants;
    var a := PolicyAssignment(t, SavedRow(p, id, now), later);
    PolicyRowsMember(t, rows, later, a);
    forall pair | pair in Pairs(p.grants)
      ensures exists g <- a.grants :: g.active && g.expiresAt.None? && g.nodeId == pair.0 && g.action == pair.1
    {
      SavedRowHasPairs(t, p, id, now, later, pair);
    }
    assert a in PolicyRows(t, rows, later);
  }

  lemma UpdateSavesProposals(t: Tables, t': Tables, actor: Actor, member: Id, v: nat, preview: Fingerprint,
                             proposed: seq<Proposed>, ids: seq<Id>, root: Id, now: Time, later: Time)
    requires WellFormed(t.tree) && |ids| == |proposed| && now <= later
    requires UpdateAccess(t, actor, member, v, preview, proposed, ids, root, now) == Ok(t')
    ensures member in t'.members && t'.tree == t.tree && t'.roles == t.roles
    ensures t'.catalogue == t.catalogue && t'.tenantId == t.tenantId
    ensures forall q <- AllPreviewed(t, proposed) :: Saved(q, PolicyData(t', member, later))
  {
    hide AuthorizedAtRoot, DelegationOk, FinalOwnerSafe, Insertable, WellFormed, Saved, PolicyRows, Previewed, PreviewFingerprint;
    var rows := SavedRows(proposed, ids, now);
    forall q | q in AllPreviewed(t, proposed) ensures Saved(q, PolicyData(t', member, later)) {
      var i :| 0 <= i < |proposed| && q == Previewed(t, proposed[i]);
      assert proposed[i] in proposed && rows[i] == SavedRow(proposed[i], ids[i], now);
      SamePreview(t, t', proposed[i]);
      ProposalIsSaved(t', rows, proposed[i], ids[i], now, later);
    }
  }

  lemma SamePreview(t: Tables, t': Tables, p: Proposed)
    requires t'.catalogue == t.catalogue && (p.roleId in t.roles <==> p.roleId in t'.roles)
    requires p.roleId in t.roles ==> t'.roles[p.roleId] == t.roles[p.roleId]
    ensures Previewed(t', p) == Previewed(t, p)
  {
    if p.roleId in t.roles { SameLiveCapabilities(t, t', t.roles[p.roleId].capabilities); }
  }

  lemma {:induction false} SameLiveCapabilities(t: Tables, t': Tables, codes: seq<string>)
    requires t'.catalogue == t.catalogue
    ensures LiveCapabilities(t', codes) == LiveCapabilities(t, codes)
  {
    if codes != [] { SameLiveCapabilities(t, t', codes[1..]); }
  }

  // ---------------------------------------------------------------------------
  // The promise is kept
  // ---------------------------------------------------------------------------

  /** Nothing in a preview expires, so the time it is made at is immaterial. */
  lemma PreviewIsTimeless(tenantId: Id, target: Id, capability: string, proposed: seq<Proposal>, node: Id, at: Time, later: Time)
    ensures Evaluate(PreviewInput(tenantId, target, capability, proposed, node, at)).Allow?
       <==> Evaluate(PreviewInput(tenantId, target, capability, proposed, node, later)).Allow?
  {
    hide Evaluate, CapabilityAllowsAction, ActionForCapability, Permitted;
    var x, y := PreviewInput(tenantId, target, capability, proposed, node, at),
                PreviewInput(tenantId, target, capability, proposed, node, later);
    EvaluateMeaning(x);
    EvaluateMeaning(y);
    if Permitted(x) { PermittedAnytime(tenantId, target, capability, proposed, node, at, later); }
    if Permitted(y) { PermittedAnytime(tenantId, target, capability, proposed, node, later, at); }
  }

  lemma PermittedAnytime(tenantId: Id, target: Id, capability: string, proposed: seq<Proposal>, node: Id, at: Time, later: Time)
    requires Permitted(PreviewInput(tenantId, target, capability, proposed, node, at))
    ensures Permitted(PreviewInput(tenantId, target, capability, proposed, node, later))
  {
    hide CapabilityAllowsAction, ActionForCapability;
    var x, y := PreviewInput(tenantId, target, capability, proposed, node, at),
                PreviewInput(tenantId, target, capability, proposed, node, later);
    var a :| a in x.assignments && PermittedBy(x, a);
    var g :| g in a.grants && Permits(g, x);
    var i :| 0 <= i < |proposed| && a == PreviewAssignment(proposed[i]);
    assert g.expiresAt.None? && Permits(g, y);
    assert a in y.assignments && PermittedBy(y, a);
  }

  /** Once an update commits, the member is allowed on every node what the preview of the same
      proposal allowed there, from then on. */
  lemma CommittedUpdateKeepsPreview(t: Tables, t': Tables, actor: Actor, member: Id, v: nat, preview: Fingerprint,
                                    proposed: seq<Proposed>, ids: seq<Id>, root: Id, now: Time,
                                    target: Id, capability: string, node: Id, at: Time, later: Time)
    requires WellFormed(t.tree) && |ids| == |proposed| && now <= later
    requires UpdateAccess(t, actor, member, v, preview, proposed, ids, root, now) == Ok(t')
    requires PreviewDecision(t, target, capability, proposed, node, at).Allow?
    ensures member in t'.members && WellFormed(t'.tree)
    ensures forall user ::
              Decide(t', member, user, true, capability, ActionForCapability(capability), NodeResource(t', node), later).Allow?
  {
    hide UpdateAccess, WellFormed, Evaluate, Saved, AllPreviewed, PreviewInput, ActionForCapability, PolicyData;
    UpdateSavesProposals(t, t', actor, member, v, preview, proposed, ids, root, now, later);
    PreviewIsTimeless(t.tenantId, target, capability, AllPreviewed(t, proposed), node, at, later);
    forall user: Id
      ensures Decide(t', member, user, true, capability, ActionForCapability(capability), NodeResource(t', node), later).Allow?
    {
      PreviewIsNeverMorePermissive(t.tenantId, target, capability, AllPreviewed(t, proposed), node,
        DecisionInput(t', member, user, true, capability, ActionForCapability(capability), NodeResource(t', node), later));
    }
  }

  lemma {:induction false} RunKeepsCatalogue(t: Tables, root: Id, now: Time, run: seq<Delegation.Entry>)
    requires TablesOk(t) && Delegation.RunFrom(t, root, now, run)
    ensures var last := Delegation.Final(t, root, now, run).0; last.catalogue == t.catalogue && last.tenantId == t.tenantId
    decreases run
  {
    hide TablesOk, Delegation.FreshIds, Delegation.After;
    if run != [] {
      var e := run[0];
      CommandKeepsCatalogue(t, e.actor, root, e.command, e.at);
      RunKeepsCatalogue(Delegation.After(t, e.actor, root, e.command, e.at), root, e.at, run[1..]);
    }
  }

  lemma CommandKeepsCatalogue(t: Tables, actor: Actor, root: Id, c: Delegation.Command, now: Time)
    requires TablesOk(t) && Delegation.FreshIds(t, c)
    ensures var t' := Delegation.After(t, actor, root, c, now); t'.catalogue == t.catalogue && t'.tenantId == t.tenantId
  {
    hide TablesOk, AuthorizedAtRoot, AssignmentsValid, DelegationOk, FinalOwnerSafe, Insertable, SavedRows, NoRepeats, CodeFree,
         RoleChecks, PreviewFingerprint, BumpHolders;
  }

  /** The preview was made, other commands ran, and the update was accepted on the preview's
      fingerprint: what the preview allowed, the member is allowed. */
  lemma AcceptedPreviewIsKept(t: Tables, root: Id, now: Time, run: seq<Delegation.Entry>, viewer: Actor, viewed: Id, seen: nat,
                              shown: seq<Proposed>, actor: Actor, member: Id, v: nat, proposed: seq<Proposed>, ids: seq<Id>,
                              t': Tables, target: Id, capability: string, node: Id, later: Time)
    requires TablesOk(t) && Delegation.RunFrom(t, root, now, run) && |ids| == |proposed|
    requires var (last, end) := Delegation.Final(t, root, now, run);
             && WellFormed(last.tree) && end <= later
             && UpdateAccess(last, actor, member, v, PreviewFingerprint(t, viewer, viewed, seen, shown), proposed, ids, root, end)
                == Ok(t')
    requires PreviewDecision(t, target, capability, shown, node, now).Allow?
    ensures member in t'.members && WellFormed(t'.tree)
    ensures forall user ::
              Decide(t', member, user, true, capability, ActionForCapability(capability), NodeResource(t', node), later).Allow?
  {
    hide TablesOk, Delegation.RunFrom, Delegation.Final, WellFormed, UpdateAccess, Decide, Evaluate, PreviewInput, Previewed;
    var (last, end) := Delegation.Final(t, root, now, run);
    Delegation.AcceptedUpdateWasPreviewed(t, root, now, run, viewer, viewed, seen, shown, actor, member, v, proposed, ids);
    RunKeepsCatalogue(t, root, now, run);
    forall i | 0 <= i < |proposed| ensures Previewed(last, proposed[i]) == Previewed(t, proposed[i]) {
      assert proposed[i] in proposed;
      SamePreview(t, last, proposed[i]);
    }
    assert AllPreviewed(last, proposed) == AllPreviewed(t, shown);
    CommittedUpdateKeepsPreview(last, t', actor, member, v, PreviewFingerprint(t, viewer, viewed, seen, shown), proposed, ids, root,
                                end, target, capability, node, now, later);
  }
}
