/** The final-owner floor over interleaved transactions: the advisory lock makes the
    count of other owners and the write that relies on it one step. */
module FinalOwner {
  import opened Basics
  import opened Policy
  import opened ScopeTree
  import opened AccessTables
  import opened AccessCommands

  /** Some active membership keeps the protected owner role with ADMIN on the tenant root. */
  ghost predicate Floor(t: Tables, root: Id) {
    exists m <- t.members :: HoldsOwnerFloor(t, t.members[m], root)
  }

  ghost predicate UniqueCodes(t: Tables) {
    forall r, q :: r in t.roles && q in t.roles && t.roles[r].code == t.roles[q].code ==> r == q
  }

  /** What a transaction that takes the final-owner lock goes on to write. */
  datatype Intent =
    | ReplaceRows(member: Id, proposed: seq<Proposed>, ids: seq<Id>, at: Time)
    | Suspend(member: Id)
    | Activate(member: Id)

  datatype Phase = Waiting | Locked | Checked

  datatype Transaction = Transaction(intent: Intent, phase: Phase)

  /** The committed tables, the holder of the tenant's final-owner lock, and the
      transactions in flight. */
  datatype Shared = Shared(tables: Tables, root: Id, holder: Option<Id>, running: map<Id, Transaction>)

  function Proposal(i: Intent): seq<Proposed> {
    if i.ReplaceRows? then i.proposed else []
  }

  /** Reactivation takes the lock but counts nobody. */
  predicate Safe(t: Tables, i: Intent, root: Id) {
    i.Activate? || FinalOwnerSafe(t, i.member, Proposal(i), root)
  }

  function WithStatus(t: Tables, member: Id, status: Status): Tables
    requires member in t.members
  {
    var m := t.members[member];
    t.(members := t.members[member := m.(status := status, authVersion := m.authVersion + 1, version := m.version + 1)])
  }

  function Written(t: Tables, i: Intent): Tables
    requires i.member in t.members && (i.ReplaceRows? ==> |i.ids| == |i.proposed|)
  {
    match i
    case ReplaceRows(m, proposed, ids, at) => WithRows(t, m, SavedRows(proposed, ids, at))
    case Suspend(m) => WithStatus(t, m, Suspended)
    case Activate(m) => WithStatus(t, m, Status.Active)
  }

  // ---------------------------------------------------------------------------
  // Steps
  // ---------------------------------------------------------------------------

  function Release(s: Shared, tx: Id): Shared {
    s.(running := s.running - {tx}, holder := if s.holder == Some(tx) then None else s.holder)
  }

  ghost predicate Begin(s: Shared, s': Shared, tx: Id, intent: Intent) {
    && tx !in s.running && s.holder != Some(tx)
    && (intent.ReplaceRows? ==> |intent.ids| == |intent.proposed|)
    && s' == s.(running := s.running[tx := Transaction(intent, Waiting)])
  }

  ghost predicate Acquire(s: Shared, s': Shared, tx: Id) {
    && tx in s.running && s.running[tx].phase.Waiting? && s.holder.None?
    && s' == s.(holder := Some(tx), running := s.running[tx := s.running[tx].(phase := Locked)])
  }

  /** The count reads what is committed at that moment; failing it ends the transaction. */
  ghost predicate Check(s: Shared, s': Shared, tx: Id) {
    && tx in s.running && s.running[tx].phase.Locked?
    && s.running[tx].intent.member in s.tables.members
    && s' == if Safe(s.tables, s.running[tx].intent, s.root)
             then s.(running := s.running[tx := s.running[tx].(phase := Checked)])
             else Release(s, tx)
  }

  ghost predicate Commit(s: Shared, s': Shared, tx: Id) {
    && tx in s.running && s.running[tx].phase.Checked?
    && var i := s.running[tx].intent;
    && i.member in s.tables.members && (i.ReplaceRows? ==> |i.ids| == |i.proposed|)
    && s' == Release(s, tx).(tables := Written(s.tables, i))
  }

  /** A rollback or a lost connection at any point. */
  ghost predicate Abort(s: Shared, s': Shared, tx: Id) {
    tx in s.running && s' == Release(s, tx)
  }

  /** A commit that never takes the lock: invitation, acceptance, or a role command. */
  ghost predicate Unlocked(s: Shared, s': Shared) {
    s' == s.(tables := s'.tables) && UnlockedWrite(s.tables, s'.tables, s.root)
  }

  ghost predicate UnlockedWrite(t: Tables, t': Tables, root: Id) {
    && WellFormed(t.tree)
    && (|| InvitedIn(t, t', root) || RoleWrite(t, t', root)
        || (exists m, user :: AcceptInvitation(t, m, user) == Ok(t')))
  }

  ghost predicate InvitedIn(t: Tables, t': Tables, root: Id)
    requires WellFormed(t.tree)
  {
    exists actor: Actor, m, audience, proposed: seq<Proposed>, ids: seq<Id>, now ::
      m !in t.members && |ids| == |proposed| && Invite(t, actor, m, audience, proposed, ids, root, now) == Ok(t')
  }

  ghost predicate RoleWrite(t: Tables, t': Tables, root: Id)
    requires WellFormed(t.tree)
  {
    || (exists actor: Actor, r, code: string, audiences, capabilities: seq<string>, now ::
          r !in t.roles && CreateRole(t, actor, r, code, audiences, capabilities, root, now) == Ok(t'))
    || (exists actor: Actor, r, v: nat, code: string, audiences, capabilities: seq<string>, now ::
          UpdateRole(t, actor, r, v, code, audiences, capabilities, root, now) == Ok(t'))
    || (exists actor: Actor, r, v: nat, now :: DeactivateRole(t, actor, r, v, root, now) == Ok(t'))
  }

  ghost predicate Next(s: Shared, s': Shared) {
    || Unlocked(s, s')
    || (exists tx, intent :: Begin(s, s', tx, intent))
    || (exists tx :: Acquire(s, s', tx))
    || (exists tx :: Check(s, s', tx))
    || (exists tx :: Commit(s, s', tx))
    || (exists tx :: Abort(s, s', tx))
  }

  // ---------------------------------------------------------------------------
  // The invariant
  // ---------------------------------------------------------------------------

  /** Only the holder is past the lock, and what it checked is still true. */
  ghost predicate LockDiscipline(s: Shared) {
    forall tx <- s.running ::
      && (!s.running[tx].phase.Waiting? ==> s.holder == Some(tx))
      && (s.running[tx].phase.Checked? ==> Safe(s.tables, s.running[tx].intent, s.root))
  }

  ghost predicate Inv(s: Shared) {
    Floor(s.tables, s.root) && UniqueCodes(s.tables) && LockDiscipline(s)
  }

  lemma FloorHasOwnerRole(t: Tables, root: Id)
    requires Floor(t, root)
    ensures OwnerRoles(t) != {}
  {
    var m :| m in t.members && HoldsOwnerFloor(t, t.members[m], root);
    var row :| row in t.members[m].assignments && row.roleId in t.roles && t.roles[row.roleId].code == OWNER;
    assert row.roleId in OwnerRoles(t);
  }

  /** Every owner of the first state is one in the second. */
  ghost predicate OwnersStay(t: Tables, t': Tables, root: Id) {
    && OwnerRoles(t') == OwnerRoles(t)
    && forall m <- t.members :: HoldsOwnerFloor(t, t.members[m], root) ==>
         m in t'.members && HoldsOwnerFloor(t', t'.members[m], root)
  }

  lemma OwnersStayIsEnough(t: Tables, t': Tables, root: Id, i: Intent)
    requires OwnersStay(t, t', root)
    ensures Floor(t, root) ==> Floor(t', root)
    ensures Safe(t, i, root) ==> Safe(t', i, root)
  {
  }

  lemma UnlockedWriteKeepsOwners(t: Tables, t': Tables, root: Id)
    requires UnlockedWrite(t, t', root) && Floor(t, root) && UniqueCodes(t)
    ensures OwnersStay(t, t', root) && UniqueCodes(t')
  {
    hide AuthorizedAtRoot, DelegationOk, Insertable, SavedRows, AssignmentsValid, NoRepeats, RoleCapabilityOk, WellFormed,
         Floor, HoldsOwnerFloor;
    FloorHasOwnerRole(t, root);
    if InvitedIn(t, t', root) || (exists m, user :: AcceptInvitation(t, m, user) == Ok(t')) {
      SameRolesKeepOwners(t, t', root);
    } else {
      RoleWriteKeepsOwners(t, t', root);
    }
  }

  lemma SameRolesKeepOwners(t: Tables, t': Tables, root: Id)
    requires t'.roles == t.roles
    requires forall m <- t.members ::
      && m in t'.members
      && t'.members[m].assignments == t.members[m].assignments
      && (t.members[m].status.Active? ==> t'.members[m].status.Active?)
    ensures OwnersStay(t, t', root)
  {
  }

  /** A role command leaves every protected role and every assignment alone, and cannot
      bring a second role with the owner's code. */
  ghost predicate RolesKept(t: Tables, t': Tables, role: Id) {
    && role in t'.roles
    && (forall r :: r != role ==> (r in t'.roles <==> r in t.roles))
    && (forall r :: r != role && r in t.roles ==> t'.roles[r] == t.roles[r])
    && (role in t.roles ==> !t.roles[role].protected)
    && CodeFree(t, t'.roles[role].code, {role})
    && (forall m <- t.members ::
          && m in t'.members
          && t'.members[m].assignments == t.members[m].assignments && t'.members[m].status == t.members[m].status)
  }

  lemma CreateRoleShape(t: Tables, t': Tables, actor: Actor, role: Id, code: string, audiences: set<Audience>,
                        capabilities: seq<string>, root: Id, now: Time)
    requires WellFormed(t.tree) && role !in t.roles
    requires CreateRole(t, actor, role, code, audiences, capabilities, root, now) == Ok(t')
    ensures RolesKept(t, t', role)
  {
    hide RoleChecks, WellFormed, NoRepeats;
    assert CodeFree(t, code, {role});
  }

  lemma UpdateRoleShape(t: Tables, t': Tables, actor: Actor, role: Id, v: nat, code: string, audiences: set<Audience>,
                        capabilities: seq<string>, root: Id, now: Time)
    requires WellFormed(t.tree)
    requires UpdateRole(t, actor, role, v, code, audiences, capabilities, root, now) == Ok(t')
    ensures RolesKept(t, t', role)
  {
  }

  lemma DeactivateRoleShape(t: Tables, t': Tables, actor: Actor, role: Id, v: nat, root: Id, now: Time)
    requires WellFormed(t.tree) && UniqueCodes(t)
    requires DeactivateRole(t, actor, role, v, root, now) == Ok(t')
    ensures RolesKept(t, t', role)
  {
    hide AuthorizedAtRoot, WellFormed;
  }

  lemma RoleWriteShape(t: Tables, t': Tables, root: Id) returns (role: Id)
    requires WellFormed(t.tree) && RoleWrite(t, t', root) && UniqueCodes(t)
    ensures RolesKept(t, t', role)
  {
    hide CreateRole, UpdateRole, DeactivateRole, RolesKept, UniqueCodes, WellFormed;
    if actor: Actor, r, code: string, audiences, capabilities: seq<string>, now :|
      r !in t.roles && CreateRole(t, actor, r, code, audiences, capabilities, root, now) == Ok(t')
    {
      role := r;
      CreateRoleShape(t, t', actor, r, code, audiences, capabilities, root, now);
    } else if actor: Actor, r, v: nat, code: string, audiences, capabilities: seq<string>, now :|
      UpdateRole(t, actor, r, v, code, audiences, capabilities, root, now) == Ok(t')
    {
      role := r;
      UpdateRoleShape(t, t', actor, r, v, code, audiences, capabilities, root, now);
    } else {
      var actor: Actor, r, v: nat, now :| DeactivateRole(t, actor, r, v, root, now) == Ok(t');
      role := r;
      DeactivateRoleShape(t, t', actor, r, v, root, now);
    }
  }

  lemma RoleWriteKeepsOwners(t: Tables, t': Tables, root: Id)
    requires WellFormed(t.tree) && RoleWrite(t, t', root) && UniqueCodes(t) && Floor(t, root)
    ensures OwnersStay(t, t', root) && UniqueCodes(t')
  {
    hide WellFormed, RoleWrite;
    var role := RoleWriteShape(t, t', root);
    var w :| w in t.members && HoldsOwnerFloor(t, t.members[w], root);
    var held :| held in t.members[w].assignments && held.roleId in t.roles
      && t.roles[held.roleId].code == OWNER && t.roles[held.roleId].protected;
    assert held.roleId != role;
    assert t'.roles[role].code != OWNER;
    forall m | m in t.members && HoldsOwnerFloor(t, t.members[m], root)
      ensures m in t'.members && HoldsOwnerFloor(t', t'.members[m], root)
    {
    }
  }

  lemma {:induction false} SavedGrantsContain(grants: seq<ProposedGrant>, now: Time, p: ProposedGrant, action: ScopeAction)
    requires p in grants && action in p.actions
    ensures GrantRow(p.nodeId, action, true, now, None) in SavedGrants(grants, now)
  {
    var last := grants[|grants| - 1];
    var front := grants[..|grants| - 1];
    assert grants == front + [last];
    if p in front {
      SavedGrantsContain(front, now, p, action);
    } else {
      DistinctMembers(last.actions, action);
      var i :| 0 <= i < |Distinct(last.actions)| && Distinct(last.actions)[i] == action;
      assert ActionRows(last.nodeId, Distinct(last.actions), now)[i] == GrantRow(p.nodeId, action, true, now, None);
    }
  }

  /** A proposal that keeps the floor writes rows that hold it. */
  lemma KeptFloorIsWritten(t: Tables, m: Member, proposed: seq<Proposed>, ids: seq<Id>, root: Id, now: Time)
    requires UniqueCodes(t) && HoldsOwnerFloor(t, m, root)
    requires |ids| == |proposed| && KeepsOwnerFloor(t, proposed, root)
    ensures HoldsOwnerFloor(t, m.(assignments := SavedRows(proposed, ids, now)), root)
  {
    var held :| held in m.assignments && held.roleId in t.roles
      && t.roles[held.roleId].code == OWNER && t.roles[held.roleId].active && t.roles[held.roleId].protected;
    var p :| p in proposed && p.roleId in OwnerRoles(t)
      && exists g <- p.grants :: g.nodeId == root && Admin in g.actions;
    assert p.roleId == held.roleId;
    var g :| g in p.grants && g.nodeId == root && Admin in g.actions;
    SavedGrantsContain(p.grants, now, g, Admin);
    var i :| 0 <= i < |proposed| && proposed[i] == p;
    var row := SavedRow(p, ids[i], now);
    assert row == SavedRows(proposed, ids, now)[i];
    var saved := GrantRow(root, Admin, true, now, None);
    assert saved in row.grants && saved.active;
  }

  /** A checked write keeps the floor. */
  lemma WrittenKeepsFloor(t: Tables, i: Intent, root: Id)
    requires Floor(t, root) && UniqueCodes(t) && Safe(t, i, root)
    requires i.member in t.members && (i.ReplaceRows? ==> |i.ids| == |i.proposed|)
    ensures Floor(Written(t, i), root) && UniqueCodes(Written(t, i))
  {
    hide SavedRows, KeepsOwnerFloor;
    var t' := Written(t, i);
    FloorHasOwnerRole(t, root);
    var w :| w in t.members && HoldsOwnerFloor(t, t.members[w], root);
    if i.Suspend? {
      assert !KeepsOwnerFloor(t, [], root) by { NoProposalKeepsNothing(t, root); }
    }
    if OtherOwner(t, i.member, root) {
      var o :| o in t.members && o != i.member && HoldsOwnerFloor(t, t.members[o], root);
      assert HoldsOwnerFloor(t', t'.members[o], root);
    } else if i.ReplaceRows? {
      assert w == i.member;
      KeptFloorIsWritten(t, t.members[w], i.proposed, i.ids, root, i.at);
      assert HoldsOwnerFloor(t', t'.members[w], root);
    } else {
      assert i.Activate?;
      assert HoldsOwnerFloor(t', t'.members[w], root);
    }
  }

  /** The committed commands are such checked writes. */
  lemma CommandsAreCheckedWrites(t: Tables, t': Tables, actor: Actor, member: Id, version: nat, preview: Fingerprint,
                                 proposed: seq<Proposed>, ids: seq<Id>, suspend: bool, root: Id, now: Time)
    requires WellFormed(t.tree) && |ids| == |proposed|
    ensures UpdateAccess(t, actor, member, version, preview, proposed, ids, root, now) == Ok(t') ==>
      var i := ReplaceRows(member, proposed, ids, now);
      member in t.members && Safe(t, i, root) && t' == Written(t, i)
    ensures Lifecycle(t, actor, member, version, suspend, root, now) == Ok(t') ==>
      var i := if suspend then Suspend(member) else Activate(member);
      member in t.members && Safe(t, i, root) && t' == Written(t, i)
  {
    hide AuthorizedAtRoot, AssignmentsValid, DelegationOk, FinalOwnerSafe, Insertable, SavedRows, WellFormed;
  }

  lemma NoProposalKeepsNothing(t: Tables, root: Id)
    ensures !KeepsOwnerFloor(t, [], root)
  {
  }

  lemma StepKeepsInv(s: Shared, s': Shared)
    requires Inv(s) && Next(s, s')
    ensures Inv(s') && s'.root == s.root
  {
    hide Floor, UniqueCodes, UnlockedWrite, Safe, Written;
    if Unlocked(s, s') {
      UnlockedWriteKeepsOwners(s.tables, s'.tables, s.root);
      forall tx | tx in s.running
        ensures Safe(s.tables, s.running[tx].intent, s.root) ==> Safe(s'.tables, s.running[tx].intent, s.root)
      {
        OwnersStayIsEnough(s.tables, s'.tables, s.root, s.running[tx].intent);
      }
      OwnersStayIsEnough(s.tables, s'.tables, s.root, Activate(0));
    } else if tx :| Commit(s, s', tx) {
      WrittenKeepsFloor(s.tables, s.running[tx].intent, s.root);
    }
  }

  /** The floor holds in every state of every interleaving that starts with it. */
  lemma {:induction false} FloorHoldsThroughout(run: seq<Shared>, k: nat)
    requires k < |run| && Inv(run[0])
    requires forall i :: 0 < i < |run| ==> Next(run[i - 1], run[i])
    ensures Inv(run[k]) && run[k].root == run[0].root
  {
    hide Inv, Next;
    if k > 0 {
      FloorHoldsThroughout(run, k - 1);
      StepKeepsInv(run[k - 1], run[k]);
    }
  }

  /** The lock is needed: two owners can each be checked while the other is still there. */
  lemma WithoutTheLockTheFloorFalls() returns (t: Tables)
    ensures Floor(t, 10) && UniqueCodes(t) && 1 in t.members && 2 in t.members
    ensures Safe(t, Suspend(1), 10) && Safe(t, Suspend(2), 10)
    ensures !Floor(Written(Written(t, Suspend(1)), Suspend(2)), 10)
  {
    var g := GrantRow(10, Admin, true, 0, None);
    var owner := Member(Some(7), Status.Active, Internal, 1, 1, [AssignmentRow(30, 40, true, 0, None, [g])]);
    t := Tables(0, map[10 := Node(Tenant, None, true)], map[],
                map[40 := Role(OWNER, true, true, 1, {Internal}, [])], map[1 := owner, 2 := owner]);
    assert g in owner.assignments[0].grants;
    assert HoldsOwnerFloor(t, owner, 10);
    assert HoldsOwnerFloor(t, t.members[1], 10) && HoldsOwnerFloor(t, t.members[2], 10);
    assert OtherOwner(t, 1, 10) by { assert 2 in t.members; }
    assert OtherOwner(t, 2, 10) by { assert 1 in t.members; }
  }
}
