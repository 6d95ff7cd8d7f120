/** The tenant-side access transactions as they run: loops that validate row by row,
    delete, insert and bump, and roll back on the first failure. Each is proved to be the
    transaction of the same name in AccessCommands. */
module AccessStore {
  import opened Basics
  import opened Policy
  import opened ScopeTree
  import opened AccessTables
  import Commands = AccessCommands
  import opened AccessCommands
  import opened FinalOwner

  // ---------------------------------------------------------------------------
  // Facts about the rows an accepted proposal writes
  // ---------------------------------------------------------------------------

  lemma SavedGrantsStep(grants: seq<ProposedGrant>, j: nat, now: Time)
    requires j < |grants|
    ensures SavedGrants(grants[..j + 1], now) ==
      SavedGrants(grants[..j], now) + ActionRows(grants[j].nodeId, Distinct(grants[j].actions), now)
  {
    assert grants[..j + 1][..j] == grants[..j];
  }

  lemma {:induction false} SavedGrantsPrefix(grants: seq<ProposedGrant>, j: nat, now: Time)
    requires j <= |grants|
    ensures SavedGrants(grants[..j], now) <= SavedGrants(grants, now)
    decreases |grants| - j
  {
    if j == |grants| {
      assert grants[..j] == grants;
    } else {
      SavedGrantsStep(grants, j, now);
      SavedGrantsPrefix(grants, j + 1, now);
    }
  }

  lemma RepeatInPrefix<T>(prefix: seq<T>, x: T, whole: seq<T>)
    requires prefix + [x] <= whole && x in prefix
    ensures !NoRepeats(whole)
  {
    var i :| 0 <= i < |prefix| && prefix[i] == x;
    assert whole[i] == (prefix + [x])[i] && whole[|prefix|] == (prefix + [x])[|prefix|];
  }

  /** The inner insert loops: one row per node and distinct action, refused at the first
      repeated key. */
  method InsertGrants(grants: seq<ProposedGrant>, now: Time) returns (ok: bool, rows: seq<GrantRow>)
    ensures ok <==> NoRepeats(SavedGrants(grants, now))
    ensures ok ==> rows == SavedGrants(grants, now)
  {
    rows := [];
    for j := 0 to |grants|
      invariant rows == SavedGrants(grants[..j], now) && NoRepeats(rows)
    {
      var node, actions := grants[j].nodeId, Distinct(grants[j].actions);
      ghost var before := rows;
      SavedGrantsStep(grants, j, now);
      SavedGrantsPrefix(grants, j + 1, now);
      for k := 0 to |actions|
        invariant rows == before + ActionRows(node, actions, now)[..k] && NoRepeats(rows)
      {
        var row := GrantRow(node, actions[k], true, now, None);
        assert rows + [row] == before + ActionRows(node, actions, now)[..k + 1];
        assert rows + [row] <= SavedGrants(grants[..j + 1], now);
        if row in rows {
          RepeatInPrefix(rows, row, SavedGrants(grants, now));
          return false, [];
        }
        rows := rows + [row];
      }
    }
    assert grants[..|grants|] == grants;
    ok := true;
  }

  predicate CapabilityDelegable(t: Tables, actor: Actor, c: string, grants: seq<ProposedGrant>, now: Time)
    requires WellFormed(t.tree)
  {
    Delegable(t, actor, c) && forall g <- grants :: MayDelegate(t, actor, c, g.nodeId, now)
  }

  function Holders(members: map<Id, Member>, role: Id): set<Id> {
    set m | m in members && exists row <- members[m].assignments :: row.roleId == role
  }

  // ---------------------------------------------------------------------------
  // The store
  // ---------------------------------------------------------------------------

  class Store {
    const tenantId: Id
    const tree: Tree
    const catalogue: map<string, CatalogueEntry>
    var roles: map<Id, Role>
    var members: map<Id, Member>

    function View(): Tables
      reads this
    {
      Tables(tenantId, tree, catalogue, roles, members)
    }

    constructor (t: Tables)
      ensures View() == t
    {
      tenantId, tree, catalogue, roles, members := t.tenantId, t.tree, t.catalogue, t.roles, t.members;
    }

    /** Three nested loops that stop at the first capability the actor may not hand out. */
    method ValidateDelegation(actor: Actor, proposed: seq<Proposed>, now: Time) returns (ok: bool)
      requires WellFormed(tree)
      ensures ok == DelegationOk(View(), actor, proposed, now)
    {
      hide MayDelegate, IsOwner, LiveCapabilities, WellFormed;
      var t := View();
      var owner := IsOwner(t, actor);
      for i := 0 to |proposed|
        invariant forall p <- proposed[..i] :: ProposalDelegable(t, actor, p, now)
      {
        var p := proposed[i];
        if p.roleId in roles {
          var capabilities := LiveCapabilities(t, roles[p.roleId].capabilities);
          LiveAreKnown(t, roles[p.roleId].capabilities);
          for k := 0 to |capabilities|
            invariant forall c <- capabilities[..k] :: CapabilityDelegable(t, actor, c, p.grants, now)
          {
            var c := capabilities[k];
            assert c in capabilities && p in proposed;
            if !catalogue[c].delegable && !owner {
              return false;
            }
            for j := 0 to |p.grants|
              invariant forall g <- p.grants[..j] :: MayDelegate(t, actor, c, g.nodeId, now)
            {
              if !MayDelegate(t, actor, c, p.grants[j].nodeId, now) {
                assert p.grants[j] in p.grants && !CapabilityDelegable(t, actor, c, p.grants, now);
                return false;
              }
            }
            assert p.grants[..|p.grants|] == p.grants;
          }
          assert capabilities[..|capabilities|] == capabilities;
        }
        assert ProposalDelegable(t, actor, p, now);
      }
      assert proposed[..|proposed|] == proposed;
      ok := true;
    }

    /** Clears the member's rows, then inserts what is proposed; false on a unique key. */
    method ReplaceAssignments(member: Id, proposed: seq<Proposed>, ids: seq<Id>, now: Time) returns (ok: bool)
      requires member in members && |ids| == |proposed|
      modifies this`members
      ensures ok <==> Insertable(SavedRows(proposed, ids, now))
      ensures ok ==>
        members == old(members)[member := old(members)[member].(assignments := SavedRows(proposed, ids, now))]
    {
      hide SavedGrants;
      members := members[member := members[member].(assignments := [])];
      ghost var all := SavedRows(proposed, ids, now);
      for i := 0 to |proposed|
        invariant member in members
        invariant members == old(members)[member := old(members)[member].(assignments := all[..i])]
        invariant Insertable(all[..i])
      {
        var rows := members[member].assignments;
        var p := proposed[i];
        if exists row <- rows :: row.roleId == p.roleId {
          ghost var k :| 0 <= k < |rows| && rows[k].roleId == p.roleId;
          assert all[k].roleId == all[i].roleId;
          return false;
        }
        var inserted, grants := InsertGrants(p.grants, now);
        if !inserted {
          assert all[i] in all && !NoRepeats(all[i].grants);
          return false;
        }
        var row := AssignmentRow(ids[i], p.roleId, true, now, None, grants);
        assert row == all[i] && rows + [row] == all[..i + 1];
        members := members[member := members[member].(assignments := rows + [row])];
      }
      assert all[..|proposed|] == all;
      ok := true;
    }

    /** Only the member changes, what its sessions have seen of it is out of date, and the
        tenant does not lose its last owner. */
    ghost predicate TouchesOnly(before: Tables, member: Id, root: Id)
      reads this
    {
      && member in before.members && members.Keys == before.members.Keys
      && (forall m <- members :: m != member ==> members[m] == before.members[m])
      && (forall a: Actor :: a.memberId == member && ActorCurrent(before, a) ==> !ActorCurrent(View(), a))
      && (Floor(before, root) && UniqueCodes(before) ==> Floor(View(), root) && UniqueCodes(View()))
    }

    method UpdateAccess(actor: Actor, member: Id, expectedVersion: nat, preview: Fingerprint, proposed: seq<Proposed>,
                        ids: seq<Id>, root: Id, now: Time) returns (error: Option<Error>)
      requires WellFormed(tree) && |ids| == |proposed|
      modifies this`members
      ensures Outcome(Commands.UpdateAccess(old(View()), actor, member, expectedVersion, preview, proposed, ids, root, now), error)
      ensures if error.Some? then View() == old(View()) else TouchesOnly(old(View()), member, root)
    {
      hide AuthorizedAtRoot, WellFormed, AssignmentsValid, DelegationOk, FinalOwnerSafe, Insertable, SavedRows,
           PreviewFingerprint, Floor, UniqueCodes, Safe;
      if !AuthorizedAtRoot(View(), actor, "identity.user.admin", root, now) { return Some(NotAuthorized); }
      if member !in members { return Some(NotFound); }
      if !AssignmentsValid(View(), proposed, members[member].audience) { return Some(InvalidRoleOrScope); }
      var delegable := ValidateDelegation(actor, proposed, now);
      if !delegable { return Some(DelegationDenied); }
      if members[member].version != expectedVersion { return Some(VersionConflict); }
      if preview != PreviewFingerprint(View(), actor, member, expectedVersion, proposed) { return Some(PreviewStale); }
      if !FinalOwnerSafe(View(), member, proposed, root) { return Some(FinalOwnerRequired); }
      var before := members;
      var saved := ReplaceAssignments(member, proposed, ids, now);
      if !saved {
        members := before;
        return Some(UniqueViolation);
      }
      var m := members[member];
      members := members[member := m.(authVersion := m.authVersion + 1, version := m.version + 1)];
      error := None;
      assert View() == WithRows(old(View()), member, SavedRows(proposed, ids, now));
      if Floor(old(View()), root) && UniqueCodes(old(View())) {
        UpdateKeepsFloor(old(View()), View(), actor, member, expectedVersion, preview, proposed, ids, root, now);
      }
    }

    /** The state is the transaction's on success and untouched on refusal. */
    ghost predicate Outcome(expected: Result<Tables, Error>, error: Option<Error>)
      reads this
    {
      match expected
      case Ok(t) => error.None? && View() == t
      case Err(e) => error == Some(e)
    }

    method ValidateRoleCapabilities(actor: Actor, capabilities: seq<string>, root: Id, now: Time)
      returns (error: Option<Error>)
      requires WellFormed(tree) && AuthorizedAtRoot(View(), actor, "identity.role.admin", root, now)
      ensures error == RoleChecks(View(), actor, capabilities, root, now)
    {
      hide AuthorizedAtRoot, WellFormed, AllowedByAdmin, IsOwner, DecideNode;
      var t := View();
      for k := 0 to |capabilities|
        invariant forall c <- capabilities[..k] :: c in catalogue && catalogue[c].active
      {
        if capabilities[k] !in catalogue || !catalogue[capabilities[k]].active {
          assert capabilities[k] in capabilities;
          return Some(UnknownCapability);
        }
      }
      var owner := IsOwner(t, actor);
      for k := 0 to |capabilities|
        invariant forall c <- capabilities[..k] :: RoleCapabilityOk(t, actor, root, c, now)
      {
        var c := capabilities[k];
        assert c in capabilities;
        if !catalogue[c].delegable && !owner { return Some(DelegationDenied); }
        var decision := DecideNode(t, actor, c, ActionForCapability(c), root, now);
        if !AllowedByAdmin(t, actor, decision, now) { return Some(DelegationDenied); }
      }
      error := None;
    }

    /** The capability rows are written one by one; a repeated code breaks their key. */
    method InsertCapabilities(capabilities: seq<string>) returns (ok: bool, stored: seq<string>)
      ensures ok <==> NoRepeats(capabilities)
      ensures ok ==> stored == capabilities
    {
      stored := [];
      for k := 0 to |capabilities|
        invariant stored == capabilities[..k] && NoRepeats(stored)
      {
        if capabilities[k] in stored {
          RepeatInPrefix(stored, capabilities[k], capabilities);
          return false, [];
        }
        stored := stored + [capabilities[k]];
      }
      ok := true;
    }

    method BumpMembers(affected: set<Id>)
      requires affected <= members.Keys
      modifies this`members
      ensures members == map m | m in old(members) ::
                           if m in affected then old(members)[m].(authVersion := old(members)[m].authVersion + 1)
                           else old(members)[m]
    {
      var rest := affected;
      while rest != {}
        invariant rest <= affected && members.Keys == old(members).Keys
        invariant forall m <- members ::
          members[m] ==
          if m in affected - rest then old(members)[m].(authVersion := old(members)[m].authVersion + 1)
          else old(members)[m]
        decreases |rest|
      {
        var m :| m in rest;
        members := members[m := members[m].(authVersion := members[m].authVersion + 1)];
        rest := rest - {m};
      }
    }

    method UpdateRole(actor: Actor, role: Id, expectedVersion: nat, code: string, audiences: set<Audience>,
                      capabilities: seq<string>, root: Id, now: Time) returns (error: Option<Error>)
      requires WellFormed(tree)
      modifies this`members, this`roles
      ensures Outcome(Commands.UpdateRole(old(View()), actor, role, expectedVersion, code, audiences, capabilities, root, now),
                      error)
      ensures error.Some? ==> View() == old(View())
    {
      hide AuthorizedAtRoot, WellFormed, NoRepeats, CodeFree, RoleCapabilityOk;
      if !AuthorizedAtRoot(View(), actor, "identity.role.admin", root, now) { return Some(NotAuthorized); }
      error := ValidateRoleCapabilities(actor, capabilities, root, now);
      if error.Some? { return; }
      if role !in roles { return Some(NotFound); }
      if roles[role].protected { return Some(ProtectedRole); }
      if roles[role].version != expectedVersion { return Some(VersionConflict); }
      var inserted, stored := InsertCapabilities(capabilities);
      if !inserted || !CodeFree(View(), code, {role}) { return Some(UniqueViolation); }
      var r := roles[role];
      roles := roles[role := Role(code, r.protected, r.active, r.version + 1, audiences, stored)];
      BumpMembers(Holders(members, role));
      error := None;
    }

    method DeactivateRole(actor: Actor, role: Id, expectedVersion: nat, root: Id, now: Time)
      returns (error: Option<Error>)
      requires WellFormed(tree)
      modifies this`members, this`roles
      ensures Outcome(Commands.DeactivateRole(old(View()), actor, role, expectedVersion, root, now), error)
      ensures error.Some? ==> View() == old(View())
    {
      hide AuthorizedAtRoot, WellFormed;
      if !AuthorizedAtRoot(View(), actor, "identity.role.admin", root, now) { return Some(NotAuthorized); }
      if role !in roles { return Some(NotFound); }
      var r := roles[role];
      if r.protected { return Some(ProtectedRole); }
      if r.version != expectedVersion { return Some(VersionConflict); }
      BumpMembers(Holders(members, role));
      roles := roles[role := r.(active := false, version := r.version + 1)];
      error := None;
    }

    method Lifecycle(actor: Actor, member: Id, expectedVersion: nat, suspend: bool, root: Id, now: Time)
      returns (error: Option<Error>)
      requires WellFormed(tree)
      modifies this`members
      ensures Outcome(Commands.Lifecycle(old(View()), actor, member, expectedVersion, suspend, root, now), error)
      ensures if error.Some? then View() == old(View()) else TouchesOnly(old(View()), member, root)
      ensures error.None? ==> members[member].status == (if suspend then Suspended else Status.Active)
                              && members[member].assignments == old(members)[member].assignments
    {
      hide AuthorizedAtRoot, WellFormed, FinalOwnerSafe, Floor, UniqueCodes, Safe;
      if !AuthorizedAtRoot(View(), actor, "identity.user.admin", root, now) { return Some(NotAuthorized); }
      if member !in members { return Some(NotFound); }
      var m := members[member];
      if m.version != expectedVersion { return Some(VersionConflict); }
      if suspend && !FinalOwnerSafe(View(), member, [], root) { return Some(FinalOwnerRequired); }
      members := members[member :=
        m.(status := if suspend then Suspended else Status.Active, authVersion := m.authVersion + 1, version := m.version + 1)];
      error := None;
      if Floor(old(View()), root) && UniqueCodes(old(View())) {
        LifecycleKeepsFloor(old(View()), View(), actor, member, expectedVersion, suspend, root, now);
      }
    }
  }

  lemma UpdateKeepsFloor(t: Tables, t': Tables, actor: Actor, member: Id, version: nat, preview: Fingerprint,
                         proposed: seq<Proposed>, ids: seq<Id>, root: Id, now: Time)
    requires WellFormed(t.tree) && |ids| == |proposed| && Floor(t, root) && UniqueCodes(t)
    requires Commands.UpdateAccess(t, actor, member, version, preview, proposed, ids, root, now) == Ok(t')
    ensures Floor(t', root) && UniqueCodes(t')
  {
    hide Commands.UpdateAccess, Floor, UniqueCodes, Safe, Written;
    CommandsAreCheckedWrites(t, t', actor, member, version, preview, proposed, ids, false, root, now);
    WrittenKeepsFloor(t, ReplaceRows(member, proposed, ids, now), root);
  }

  lemma LifecycleKeepsFloor(t: Tables, t': Tables, actor: Actor, member: Id, version: nat, suspend: bool, root: Id, now: Time)
    requires WellFormed(t.tree) && Floor(t, root) && UniqueCodes(t)
    requires Commands.Lifecycle(t, actor, member, version, suspend, root, now) == Ok(t')
    ensures Floor(t', root) && UniqueCodes(t')
  {
    hide Commands.Lifecycle, Floor, UniqueCodes, Safe, Written;
    CommandsAreCheckedWrites(t, t', actor, member, version, PreviewFingerprint(t, actor, member, version, []), [], [],
                             suspend, root, now);
    WrittenKeepsFloor(t, if suspend then Suspend(member) else Activate(member), root);
  }

  lemma LiveAreKnown(t: Tables, codes: seq<string>)
    ensures forall c <- LiveCapabilities(t, codes) :: c in t.catalogue
  {
  }
}
