# Verified model of the logistics platform's core logic

A Dafny 4.11 model of the parts of the platform whose correctness does not follow from reading one function: the
geofence validator, money lines, the authorization algebra and its delegation rules, access and session state, the
invitation delivery queue, idempotency records, password recovery, one-time codes, and the CSV and postal-directory
pipeline. `dafny verify dfyconfig.toml` checks everything.

How the model is laid out:

- A transaction is a function on a record of tables (`Apply`, `After`, `Import`, `UpdateAccess`, …); a run is a
  sequence of such steps. Lemmas state what every step keeps and what holds in every reachable state.
- Where the code works step by step, a class or a method with loops runs the same branches in the same order, and its
  `ensures` ties it to that function: `AccessStore.Store`, `SessionStore.Store`, `DeliveryWorker.Worker`,
  `PasswordResetStore.Store`, `Mfa.Store`, `Idempotency.Store`, `PostalVersions.Store`, `Policy.EvaluatePolicy`,
  `Polygon.Refine`, `Csv.ParseCsv`, `Base32.Encode`, `PostalDirectory.Deduplicate`.
- Coordinates are exact reals; minor units, timesteps and instants are unbounded integers; hashes, keyed digests and
  random tokens are uninterpreted and taken to be collision-free. Histories that no code reads (what was sent,
  accepted, completed) are plain fields that only record.

What turned out subtle:

- A backward spike in a polygon is invisible to the one-sided adjacent check. With four vertices or more the
  crossing loop catches it, with three the area check does (`Polygon.BackwardSpikeIsCaught`).
- The list predicate is not the per-record oracle: it may show less. They coincide on every record of a member
  exactly when each grant in force on an assigned trip is covered by one on a node at or above it that is no trip
  (`ListView.ListCoincidesEverywhereIff`); for trips alone, only grants on inactive trips need the cover
  (`ListView.ListCoincidesOnTripsIff`).
- Refusing a session is permanent unless the only reason is an inactive tenant (`Sessions.RefusalIsPermanentIffDead`).
  Such a session exists exactly when it was inserted in a tenant that was inactive at that moment
  (`Sessions.BornDormantIff`). Signing in, switching tenants, accepting an access invitation and completing a factor all
  read the tenant's status before, without a lock, and a deactivation in between is outlived in any state
  (`Sessions.DeactivationIsOutlived`); accepting an owner's invitation locks the tenant and is not affected.
- The delivery lease has no fencing token, so an invitation must not be issued again while a worker of the old issue
  may still retry: that is exactly when the provider can accept two mails of the new issue
  (`Reissue.ReissueIsSafeIff`). Nor while one may still complete: that is exactly when a row can be marked delivered
  without a mail of its own issue (`Reissue.ReissueIsCandidIff`). Which workers there are is not in the tables. Over all
  reachable states, an administrator who looks at the delivery row can rule out a worker that may complete exactly when
  the row is neither leased nor failed after a lease, and one that may retry also when it is out of attempts; any other
  row has the same tables, in some reachable state, as one whose last lease is held by a worker that has done nothing yet
  (`DeliveryTables.NoCompleterIffTablesShow`, `DeliveryTables.NoRetrierIffTablesShow`).
- The reset limiter's promise per quarter of an hour holds in a window exactly when it touches at most fifteen minute
  buckets: every closed span of fourteen minutes does, and every quarter of an hour that starts on a minute, but not
  every quarter of an hour (`PasswordReset.WindowIsLimitedIff`).
- An identity of the postal directory is a join on `|`. A row that the reader accepts can swallow a different one
  exactly when a bar in its lower-cased names can be moved over a field boundary, with something left on either side and
  no space at the new edges (`PostalIdentity.SwallowsIffSomeBarMoves`); without a bar in its fields it is only merged
  with rows that agree up to case (`PostalDirectory.IdentityDecides`).
- A money line is rounded twice. Against one rounding of the exact total that moves it by at most one minor unit, which
  is reached (`MoneyLine.OneUnitIsReached`), and by none if the first rounding is exact or there is no tax
  (`MoneyLine.TwoRoundingsAgainstOne`).
- The carriage return's look-ahead in the CSV parser is redundant, because blank rows are dropped
  (`Csv.LineFeedAfterRowIsIdle`).

## Model

| member | source | states |
|---|---|---|
| `Geofence.OnSegmentIff` | packages/domain/src/canonical.ts:111-116 | for a point on the line, the box test with its tolerance is membership of the closed segment |
| `Geofence.IntersectsIffMeet` | packages/domain/src/canonical.ts:108-129 | the sign test is true exactly when the closed segments have a common point, touching, collinear and degenerate cases included |
| `Polygon.Refine` | packages/domain/src/canonical.ts:130-186 | the nested index loops report no issue exactly for distinct vertices, a simple ring and an area above the tolerance |
| `Polygon.CheckCrossings` | packages/domain/src/canonical.ts:167-185 | the pair loops add one issue for each crossing pair of non-adjacent edges |
| `Polygon.SharedPointFolds` | packages/domain/src/canonical.ts:152-166 | adjacent edges that share more than their vertex run back over each other |
| `Polygon.BackwardSpikeIsCaught` | packages/domain/src/canonical.ts:141-185 | the fold the adjacent check cannot see is excluded by the crossing loop, or by the area for a triangle |
| `Polygon.AcceptsIffSimple` | packages/domain/src/canonical.ts:130-186 | accepted rings of any length are exactly the simple ones with distinct vertices and visible area |
| `MoneyLine.RoundRatioIsNearest` | packages/domain/src/canonical.ts:673-676 | rounding gives the unique nearest integer, ties away from zero, for both signs |
| `MoneyLine.LineErrorBound` | packages/domain/src/canonical.ts:668-687 | ten million times the total differs from quantity times rate times (10000 + tax) by at most 500 (10000 + tax) + 5000000 |
| `MoneyLine.InvoiceIsTheSumOfItsLines` | apps/backend/src/modules/canonical/canonical.service.ts:1493-1528 | the stored invoice total, added up as taxable plus tax, is the sum of the stored line totals |
| `MoneyLine.InvoiceErrorBound` | apps/backend/src/modules/canonical/canonical.service.ts:1493-1528 | an invoice of n lines drifts at most 1.5 n minor units from the exact total |
| `MoneyLine.TwoRoundingsAgainstOne` | packages/domain/src/canonical.ts:668-687 | for every line the total is within one minor unit of rounding the exact total once, and equal to it when quantity times rate is a multiple of 1000 or the tax is 0 |
| `MoneyLine.NegatedRateNegates` | packages/domain/src/canonical.ts:668-687 | negating the rate negates taxable, tax and total exactly |
| `MoneyLine.AmountsAreMonotone` | packages/domain/src/canonical.ts:668-687 | a higher rate never lowers taxable, tax or total |
| `Policy.EvaluatePolicy` | packages/auth/src/index.ts:115-168 | the nested loops with their early return and flag allow exactly when all gates are open and some carried grant permits |
| `Policy.EvaluateMeaning` | packages/auth/src/index.ts:115-168 | the decision and its reason equal the declarative rule, and an allowing decision names an assignment and grant that permit |
| `Policy.AllowedIsMonotone` | packages/auth/src/index.ts:126-163 | more assignments, grants or ancestors never turn an allowed request away |
| `Policy.OrderIsIrrelevant` | packages/auth/src/index.ts:128-167 | permuting assignments, or grants inside them, changes neither outcome nor reason |
| `Policy.EquivalentInputsAgree` | packages/auth/src/index.ts:115-168 | inputs that cover each other get the same outcome and reason |
| `Policy.PreviewIsNeverMorePermissive` | apps/backend/src/access.service.ts:2036-2094 | what the ancestor-free preview allows, enforcement allows on any assignments that carry the proposal |
| `ScopeTree.ChainIsReachability` | apps/backend/src/access.service.ts:221-233 | the recursive query yields exactly the nodes reachable upwards |
| `ScopeTree.AncestorsAreWhatLiesAbove` | apps/backend/src/access.service.ts:221-233 | the ancestors map is strict reachability: no node is its own ancestor |
| `ScopeTree.ChainRanksDescend` | packages/db/prisma/migrations/202608240003_fnd02_identity_access/migration.sql:85-107 | the admitted parent types strictly descend, so every chain of parents ends |
| `ScopeTree.AboveIsTransitive` | apps/backend/src/access.service.ts:221-233 | what lies above an ancestor lies above the node |
| `ScopeTree.RootIsAboveAll` | packages/db/prisma/migrations/202608240003_fnd02_identity_access/migration.sql:85-107 | on a single-rooted tree the tenant node lies above every node |
| `AccessTables.DecideMeaning` | apps/backend/src/access.service.ts:161-282 | the oracle over the joined rows allows exactly what live assignments, capabilities and grants on the rows permit, with the driver and session gates |
| `ListView.ListRefinesOracle` | apps/backend/src/access.service.ts:2759-2822 | every record the list predicate selects is allowed by the oracle |
| `ListView.ListCoincidesWithOracle` | apps/backend/src/access.service.ts:2759-2822 | they coincide on one record when grant nodes are active and assigned-trip grants that reach it meet a trip |
| `ListView.UncoveredTripGrantHides` | apps/backend/src/access.service.ts:2759-2784 | a grant on an assigned trip that no other grant covers opens an unassigned record to the oracle that no list shows |
| `ListView.ListCoincidesEverywhereIff` | apps/backend/src/access.service.ts:2759-2822 | list and oracle coincide on every record exactly when each grant in force on an assigned trip is covered by one on no trip, at or above it |
| `ListView.ListCoincidesOnTripsIff` | apps/backend/src/access.service.ts:2759-2822 | they coincide on every trip exactly in the driver portal, or when each grant in force on an inactive trip is so covered |
| `Delegation.HoldsIsTheOracle` | apps/backend/src/access.service.ts:235-282 | a held permission is what the oracle allows on that node |
| `Delegation.DelegationIsDominated` | apps/backend/src/access.service.ts:1730-1824 | an accepted capability on a node is covered by an ADMIN grant of the actor on it or above it |
| `Delegation.CommandAddsNothing` | apps/backend/src/access.service.ts:600-653 | no invitation, access update, role creation, role update, role deactivation, life-cycle change or acceptance adds a (capability, action, node) that nobody held, then or at a later instant |
| `Delegation.TablesStayOk` | apps/backend/src/access.service.ts:1826-1861 | every command keeps foreign keys, unique assignment keys and the tree |
| `Delegation.DelegationNeverAmplifies` | apps/backend/src/access.service.ts:669-789 | over every run of these commands on a single-rooted tree, what anybody holds at the end, then or at a later instant, somebody held at the start, then or later |
| `Delegation.AcceptedUpdateWasPreviewed` | apps/backend/src/access.service.ts:2096-2192 | an update accepted on the fingerprint of an earlier preview writes the previewed proposal, for the previewed version of the membership, on roles that no command of the run in between has changed |
| `AccessPreview.CommittedUpdateKeepsPreview` | apps/backend/src/access.service.ts:2036-2192 | once an update commits, the member is allowed on every node, from then on, what the preview of the same proposal allowed there |
| `AccessPreview.AcceptedPreviewIsKept` | apps/backend/src/access.service.ts:2000-2192 | the same when the preview was made before a run of other commands, and the update was accepted on its fingerprint |
| `AccessStore.InsertGrants` | apps/backend/src/access.service.ts:1851-1860 | the insert loops write one row for each node and distinct action and fail exactly on a repeated key |
| `AccessStore.Store.ValidateDelegation` | apps/backend/src/access.service.ts:1730-1824 | the three nested loops accept exactly when every live capability may be delegated on every granted node |
| `AccessStore.Store.ValidateRoleCapabilities` | apps/backend/src/access.service.ts:600-653 | the loop over the catalogue reports exactly the role checks' error |
| `AccessStore.Store.ReplaceAssignments` | apps/backend/src/access.service.ts:1826-1861 | delete and insert leave exactly the proposed rows, or report a unique key |
| `AccessStore.Store.UpdateAccess` | apps/backend/src/access.service.ts:2126-2263 | checks, fingerprint, replacement and bump commit the transaction's new tables: only the member changes, its session snapshots are out of date, the last owner stays; a refusal leaves the tables untouched |
| `AccessStore.Store.InsertCapabilities` | apps/backend/src/access.service.ts:725-736 | the loop stores the list and fails exactly on a repeated code |
| `AccessStore.Store.BumpMembers` | apps/backend/src/access.service.ts:749-753 | every affected membership and no other gets one more authorization version |
| `AccessStore.Store.UpdateRole` | apps/backend/src/access.service.ts:669-789 | commits the role's new row and the bumps of all its holders, or nothing |
| `AccessStore.Store.DeactivateRole` | apps/backend/src/access.service.ts:791-875 | commits the inactive role and the bumps, or nothing |
| `AccessStore.Store.Lifecycle` | apps/backend/src/access.service.ts:2320-2404 | sets the member's status and nothing else of it but its versions: other members stay, the member's session snapshots are out of date, and the tenant keeps an owner if it had one; a refusal leaves the tables untouched |
| `FinalOwner.WrittenKeepsFloor` | apps/backend/src/access.service.ts:2265-2318 | a write that passed the check keeps an owner with ADMIN on the root |
| `FinalOwner.UnlockedWriteKeepsOwners` | apps/backend/src/access.service.ts:713-724 | commands that do not take the lock leave every owner an owner |
| `FinalOwner.StepKeepsInv` | apps/backend/src/access.service.ts:2265-2318 | begin, acquire, check, commit, abort and unlocked commits keep the floor and the lock discipline |
| `FinalOwner.FloorHoldsThroughout` | apps/backend/src/access.service.ts:2265-2318 | the floor holds in every state of every interleaving |
| `FinalOwner.WithoutTheLockTheFloorFalls` | apps/backend/src/access.service.ts:2271-2316 | two checks made before either write can both pass and together remove the last owner |
| `Sessions.RefusedMeansDeadOrDormant` | apps/backend/src/app.service.ts:169-254 | the guard refuses exactly the sessions that are over and those whose tenant is inactive; a restricted one only passes where that is allowed |
| `Sessions.StepEvolves` | apps/backend/src/app.service.ts:280-321 | every step only raises versions and revokes, and a new session fits the rows it was read from |
| `Sessions.StepKeepsInv` | apps/backend/src/app.service.ts:280-321 | snapshots never run ahead, and an unrevoked current snapshot sits in an active membership |
| `Sessions.DeadStaysRefused` | apps/backend/src/app.service.ts:192-229 | a session that is over is refused after every run |
| `Sessions.RefusalIsPermanentIffDead` | apps/backend/src/app.service.ts:192-229 | a refusal holds after every run if and only if it is not merely for an inactive tenant |
| `Sessions.RefusalIsPermanent` | apps/backend/src/app.service.ts:169-254 | while every session is inserted in a tenant that is active at that moment, every refusal is permanent |
| `Sessions.BornDormantIff` | apps/backend/src/app.service.ts:280-321 | a new session that is not over is dormant exactly when its tenant is inactive at the insert; accepting an owner's invitation cannot cause it |
| `Sessions.DeactivationIsOutlived` | apps/backend/src/app.service.ts:570-620 | in any state, deactivating the tenant before the insert of a sign-in, switch, access acceptance or factor completion leaves a session that is refused now and accepted after reactivation; an owner's acceptance is refused |
| `Sessions.NewSessionIsAcceptedIff` | apps/backend/src/app.service.ts:280-321 | the guard accepts a new session exactly when it has time to live and its user and tenant are active, and judges every other session as before |
| `Sessions.MfaResetEndsExactly` | apps/backend/src/access.service.ts:2486-2582 | resetting a member's factors ends the user's sessions everywhere and every session through the membership, and no others |
| `Sessions.ReactivationWakesExactly` | apps/backend/src/app.service.ts:2953-2973 | reactivating a tenant makes the guard accept its dormant sessions and changes no other verdict |
| `Sessions.TouchedIsStaleAndRevoked` | apps/backend/src/access.service.ts:749-758 | each access change leaves the session's versions stale and revokes it, except where it activates a membership or resets the factors of a member through whom another user's session is open |
| `Sessions.TouchEnds` | apps/backend/src/access.service.ts:2406-2582 | role, access, status, session, factor, trip, audience and password changes end every session they touch |
| `Sessions.AcceptedMeansUntouched` | apps/backend/src/access.service.ts:3107-3122 | an accepted session has had no access change touch its membership or user since it was created |
| `Sessions.RefusedNextIffEnded` | apps/backend/src/app.service.ts:169-254 | a step makes the guard refuse an accepted session exactly when it touches it, lets it expire, logs it out, trades it or deactivates its tenant |
| `Sessions.AcceptedIffNothingEnded` | apps/backend/src/app.service.ts:169-254 | a session accepted at one point is accepted after any run exactly when no step of the run has ended it, and is over otherwise |
| `SessionStore.Store.Session` | apps/backend/src/app.service.ts:169-254 | the guard as it runs decides the specified outcome |
| `SessionStore.Store.NewSession` | apps/backend/src/app.service.ts:280-321 | the inserted session is accepted exactly when it has time to live and its user and tenant are active; other sessions are judged as before |
| `SessionStore.Store.CompleteMfa` | apps/backend/src/access.service.ts:3679-3710 | trades the restricted session, refused from then on, for a full one, or reports a rollback and changes nothing |
| `SessionStore.Store.SwitchTenant` | apps/backend/src/app.service.ts:3094-3112 | revokes the session it was asked through and opens one for the membership read before, or reports a rollback and changes nothing |
| `SessionStore.Store.AcceptAccess` | apps/backend/src/access.service.ts:1533-1671 | binds, activates and bumps the membership and opens a session, ending what was open through it, or reports a rollback and changes nothing |
| `SessionStore.Store.CompletePasswordReset` | apps/backend/src/app.service.ts:932-953 | succeeds exactly for an active user, whose sessions all end while every other is judged as before |
| `SessionStore.Store.ResetMfa` | apps/backend/src/access.service.ts:2486-2582 | ends the user's sessions everywhere and every session through the membership, and no others |
| `SessionStore.Store.ReassignTrip` | apps/backend/src/access.service.ts:3112-3122 | ends what both drivers have open in the tenant, and nothing else |
| `SessionStore.Store.SetTenantStatus` | apps/backend/src/app.service.ts:2953-2973 | deactivation ends the tenant's sessions and no others, activation wakes its dormant ones and changes no other verdict |
| `Delivery.Classify` | apps/backend/src/invitation-email.service.ts:33-67 | codes have at most a hundred characters, and only provider codes are retryable |
| `Delivery.DeliveredWasAcceptedAndEligible` | apps/backend/src/invitation-email.service.ts:326-345 | a row becomes delivered only by completing an accepted submission while it is leased and eligible |
| `Delivery.AttemptsAreSpaced` | apps/backend/src/invitation-email.service.ts:415-430 | over every fair run without a reissue, a leased row is not attempted again before its delay, one minute after the first attempt and five after others |
| `Delivery.StepKeepsInv` | apps/backend/src/invitation-email.service.ts:322-485 | every step of sweeps, lease, check, send, complete, fail and crash keeps one holder for each row and the counts |
| `Delivery.DeliveredAtMostOnce` | apps/backend/src/invitation-email.service.ts:133-302 | in every fair run the provider accepts at most one mail of each issue, and sees no more sends than the configured attempts |
| `Delivery.FinishedRowsHoldNoSecret` | apps/backend/src/invitation-email.service.ts:322-485 | over every fair run no finished row keeps its secret envelope |
| `Delivery.FinishedIsFinal` | apps/backend/src/invitation-email.service.ts:173-208 | a finished row, stale leases included, is never leased or sent afresh before a reissue |
| `Reissue.RetryingWorkerBreaksIt` | apps/backend/src/app.service.ts:2798-2848 | from any state, a reissue under a worker of the row that may retry has a fair continuation in which two mails of the new issue are accepted |
| `Reissue.ReissueIsSafeIff` | apps/backend/src/app.service.ts:2798-2848 | a reissue keeps every issue at one acceptance in every fair continuation if and only if no worker of the row may retry |
| `Reissue.StaleSweepLeavesARetrier` | apps/backend/src/invitation-email.service.ts:173-208 | after a stale sweep a row is failed and not leased, and its worker may still retry |
| `Reissue.RunKeepsCandid` | apps/backend/src/invitation-email.service.ts:326-345 | while nobody reissues under a worker that may complete, every delivered row had a mail of its issue accepted |
| `Reissue.ReissueIsCandidIff` | apps/backend/src/app.service.ts:2798-2848 | a reissue keeps that in every such continuation if and only if no worker of the row may complete |
| `DeliveryTables.CarefulRunKeepsInv` | apps/backend/src/invitation-email.service.ts:173-224 | over every careful run a row not leased since it was issued or put back has no worker, and a delivered one none that may complete |
| `DeliveryTables.EveryRunIsShadowed` | apps/backend/src/app.service.ts:2798-2848 | for every careful run that leaves a row leased, or failed after a lease, another careful run ends in the same tables with that lease held by a worker that has done nothing |
| `DeliveryTables.NoRetrierIffTablesShow` | apps/backend/src/app.service.ts:2798-2848 | in all reachable states with the same tables no worker of the row may retry, exactly when the row is out of attempts or neither leased nor failed after a lease |
| `DeliveryTables.NoCompleterIffTablesShow` | apps/backend/src/app.service.ts:2798-2848 | in all reachable states with the same tables no worker of the row may complete, exactly when the row is neither leased nor failed after a lease |
| `DeliveryWorker.Bounded` | apps/backend/src/invitation-email.service.ts:135-135 | the batch limit is clamped to 1..100 and kept when already inside |
| `DeliveryWorker.Worker.ProcessPending` | apps/backend/src/invitation-email.service.ts:133-270 | sweeps three times and leases free due rows in the order in which they became available, each under its own task; below the limit none is left, and otherwise none that was available earlier; the queue's invariant is kept |
| `DeliveryWorker.Worker.Deliver` | apps/backend/src/invitation-email.service.ts:272-302 | every course of a delivery, errors of the last check and of the refusal included, runs queue steps after which the worker is done; an honest course keeps the queue's invariant |
| `Csv.ParseCsv` | packages/db/src/import-postal-directory.ts:123-150 | the character loop computes the specified parse |
| `Csv.FailsIffQuotesAreOdd` | packages/db/src/import-postal-directory.ts:146-146 | parsing fails exactly on an odd number of quotes |
| `Csv.ParsesRfc4180` | packages/db/src/import-postal-directory.ts:123-150 | any mix of quoted and plain fields with any line breaks, as in section 2 of RFC 4180, parses to its contents less blank records |
| `Csv.GuardedMeans` | packages/domain/src/index.ts:392-394 | a cell is guarded exactly when a formula character follows nothing but control characters and spaces |
| `Csv.GuardedIsInert` | packages/domain/src/index.ts:392-394 | a guarded cell never looks like a formula, is the value or the value behind one quote, and is blank only if the value is |
| `Csv.RoundTrip` | apps/backend/src/access.service.ts:3379-3395 | parsing printed rows returns the guarded cells of every row with a non-blank cell |
| `StableJson.SameText` | apps/backend/src/access.service.ts:42-51 | values equal up to member order print the same text |
| `StableJson.Reads` | apps/backend/src/access.service.ts:42-51 | a printed text followed by a delimiter can be read back in one way only |
| `StableJson.StableIsCanonical` | apps/backend/src/access.service.ts:42-51 | two values print the same text exactly when they are equal up to member order at every depth |
| `Base32.Encode` | apps/backend/src/access.service.ts:3432-3441 | the two bit-packing loops produce the specified text |
| `Base32.DecodingRecovers` | apps/backend/src/access.service.ts:3432-3441 | decoding as in section 6 of RFC 4648 recovers every buffer, and the text has the least length that can hold it |
| `Idempotency.MutatesAtMostOnce` | apps/backend/src/access.service.ts:877-930 | over every interleaving each key commits at most one mutation |
| `Idempotency.AnsweredCallsAreReplayed` | apps/backend/src/access.service.ts:893-912 | every other call on an answered key in the tenant that is not rolled back replays the answer without its one-time addresses on input equal up to member order, and conflicts otherwise |
| `Idempotency.Store.Idempotent` | apps/backend/src/access.service.ts:877-930 | the wrapper as it runs is one uninterrupted transaction |
| `PasswordReset.TokensPerWindow` | apps/backend/src/app.service.ts:768-796 | at most three self-service tokens of a user fall in any half-open quarter of an hour, in whatever order transactions commit |
| `PasswordReset.PassesPerWindow` | apps/backend/src/app.service.ts:696-751 | no key passes more than its limit in any window that touches at most fifteen minute buckets |
| `PasswordReset.WindowIsLimitedIff` | apps/backend/src/app.service.ts:702-751 | for every key the limit holds in a window over every run exactly when the window touches at most fifteen minute buckets |
| `PasswordReset.RequestBelowLimitsPasses` | apps/backend/src/app.service.ts:729-751 | a request below all three limits passes and counts once against each |
| `PasswordReset.ResetLimitsHold` | apps/backend/src/app.service.ts:674-842 | both limits and single completion hold after every run |
| `PasswordReset.DeadTokensStayDead` | apps/backend/src/app.service.ts:904-947 | a used or revoked token never becomes live again |
| `PasswordResetStore.Store.ConsumeBucket` | apps/backend/src/app.service.ts:696-727 | reads exactly the requests of the last quarter of an hour, however much has been cleaned up, and keeps the limiter's invariant |
| `PasswordResetStore.Store.RequestPasswordReset` | apps/backend/src/app.service.ts:674-842 | the staged returns commit the specified request |
| `PasswordResetStore.Store.CompletePasswordReset` | apps/backend/src/app.service.ts:884-947 | succeeds exactly for a live unexpired token of an eligible user; the user has no live token left, other users' tokens stay, no token completes twice, and a refusal changes nothing |
| `Mfa.TotpIsTruncation` | apps/backend/src/access.service.ts:3442-3449 | six digits spelling the dynamic truncation of section 5.3 of RFC 4226, with reads in bounds |
| `Mfa.StepKeepsInv` | apps/backend/src/access.service.ts:3450-3677 | every transaction keeps one enabled factor for each user, ten codes for each verified factor, rising steps and single spending |
| `Mfa.StepsNeverRepeat` | apps/backend/src/access.service.ts:3608-3645 | accepted timesteps of a factor strictly increase over every run and stay within one step of the clock |
| `Mfa.CodesAreSpentOnce` | apps/backend/src/access.service.ts:3647-3677 | no recovery code is spent twice in any run |
| `Mfa.OneFactorWithTenCodes` | apps/backend/src/access.service.ts:3504-3577 | a verified factor has exactly ten codes, and a user at most one enabled factor |
| `Mfa.ChallengeAcceptsIff` | apps/backend/src/access.service.ts:3624-3638 | accepted exactly when the first matching timestep is later than the last |
| `Mfa.Store.ConfirmMfa` | apps/backend/src/access.service.ts:3504-3577 | the checks and the insert loop commit the specified confirmation |
| `Mfa.Store.ChallengeMfa` | apps/backend/src/access.service.ts:3608-3645 | the search over three timesteps commits the specified challenge |
| `Mfa.Store.RecoverMfa` | apps/backend/src/access.service.ts:3647-3677 | the loop spends the first matching unused code, or none |
| `PostalDirectory.Deduplicate` | packages/db/src/import-postal-directory.ts:176-211 | the loop reports the first bad row, or the first row of each identity in file order |
| `PostalDirectory.OneRowPerIdentity` | packages/db/src/import-postal-directory.ts:188-211 | kept rows have distinct identities, as many as the file has |
| `PostalDirectory.FirstIsKept` | packages/db/src/import-postal-directory.ts:197-211 | the kept row is the first with its identity |
| `PostalDirectory.ErrorIsTheFirst` | packages/db/src/import-postal-directory.ts:184-187 | reading fails exactly when some row is bad, and reports the first |
| `PostalDirectory.ReadRowsAreValid` | packages/db/src/import-postal-directory.ts:184-216 | every row that is read has a PIN code and all its names, and there are enough rows |
| `PostalDirectory.IdentityDecides` | packages/db/src/import-postal-directory.ts:188-196 | a row without a bar shares its identity exactly with the rows whose fields agree up to case, whatever those hold |
| `PostalIdentity.ReadRowsAreAccepted` | packages/db/src/import-postal-directory.ts:176-187 | every row that is read has a PIN code and four trimmed names |
| `PostalIdentity.OtherReadingMovesBar` | packages/db/src/import-postal-directory.ts:188-196 | two lists of equally many proper fields that join to the same text differ by a bar that can be moved |
| `PostalIdentity.SwallowsIffSomeBarMoves` | packages/db/src/import-postal-directory.ts:188-211 | an accepted row swallows a different accepted row exactly when some bar in its lower-cased names can be moved over a field boundary |
| `PostalIdentity.ShiftedWordIsSwallowed` | packages/db/src/import-postal-directory.ts:188-211 | moving a word over the boundary of two names, with its bar, gives such a row |
| `PostalIdentity.AsciiLowerLowers` | packages/db/src/import-postal-directory.ts:195-195 | lower-casing letter by letter meets what the two results assume of lower-casing |
| `PostalVersions.ExactlyOneActiveForever` | packages/db/src/import-postal-directory.ts:255-326 | at most one active version of a country, and exactly one ever after the first activation |
| `PostalVersions.RowCountsHold` | packages/db/src/import-postal-directory.ts:288-313 | declared rows equal stored rows equal distinct identities |
| `PostalVersions.VersionsOnlyAdvance` | packages/db/src/import-postal-directory.ts:263-281 | status only moves from staged to active to retired and content never changes |
| `PostalVersions.Store.StoreChunks` | packages/db/src/import-postal-directory.ts:302-313 | the thousand-row loop stores every row once and in order |
| `PostalVersions.Store.ImportRows` | packages/db/src/import-postal-directory.ts:242-333 | the transaction commits the specified versions, or reports a conflict and changes nothing |

## Left out

- Floating-point error of the geometry, and "simple implies non-zero area", which needs a Jordan-curve argument.
- Cryptography (argon2, AES-GCM, SHA-256, HMAC, token generation): uninterpreted and collision-free; a recovery code stands for its own hash, a locality code for its identity.
- The SQL engine, row-level security and HTTP controllers: one transaction is one atomic step, except where a lock, a check and a commit are split apart (final owner, idempotency, delivery, the session guard against the request it lets in, and the reading of a tenant's status against the insert of a session).
- The order in which queries return rows: rows are sequences in an arbitrary order, so statements hold for every order; the scans of the claiming transaction are in the order it asks for.
- UTF-16: strings are sequences of Unicode scalar values, so lone surrogates, which the JSON serializer escapes and the CSV loop copies, do not occur.
- `StableJson.StableIsCanonical`: assumes a total order on keys; the runtime compares with the locale's collation, under which two distinct but canonically equivalent keys compare equal and keep their insertion order. Values with their own JSON conversion, such as dates, enter as the strings they convert to.
- `Delivery.DeliveredAtMostOnce`: assumes that errors raised after acceptance are never of a retryable class, which is a condition of the provider, and that nobody reissues under a worker that may retry, which `Reissue` proves exact.
- `DeliveryTables.NoRetrierIffTablesShow`: the tables are the columns the queue works with (state, attempts, availability, lease time, envelope, the invitation's use, revocation and expiry, the tenant's status); failure codes, row versions and the audit trail, which also tell of the past, are not modelled. Runs start without workers and with no rows but unsealed ones, and nobody reissues under a worker that may retry or complete.
- `PostalIdentity.SwallowsIffSomeBarMoves`: assumes that lower-casing leaves lower-case text, bars and digits alone and neither adds nor removes surrounding spaces.
- `Reissue.ReissueIsSafeIff`: takes a new link to live for more than five minutes; it lives for the configured number of hours.
- `Sessions.RefusalIsPermanent`: reading the versions a session snapshots and committing it are one step.
- `PasswordReset.PassesPerWindow`: requests are taken one after the other; concurrent transactions of different minutes do not see each other's uncommitted attempts.
- `Delegation.DelegationNeverAmplifies`: covers the access commands; leaves out platform invitations and the baseline of a new tenant, which create authority by design, the master-data services that write or move grants with organization nodes and their people (apps/backend/src/modules/canonical/mst01.service.ts:1234-1276, 1473, 2679-2693 and advanced.service.ts:878-899), and resources that demand a current assignment.
- `FinalOwner.FloorHoldsThroughout`: leaves out suspension by the platform (apps/backend/src/app.service.ts:2618-2742), which takes another lock and tests ownership without the ADMIN grant, and the master-data services, which move and inactivate grants and scope nodes without the lock (apps/backend/src/modules/canonical/mst01.service.ts:1234-1276, 2679-2712).
- The platform's own idempotency replay (apps/backend/src/app.service.ts:360-406), which follows the same scheme without canonical text.
- The reason a revoked session gives, optimistic versions under concurrency, audit events, outbox events, alerts and security counters.
- The test-only membership and data fixtures (apps/backend/src/app.service.ts:3535-3565), which run only with test hooks enabled.
- The outbox consumer that leases tenant events (apps/backend/src/app.service.ts:3498-3514).
- Which columns a report has: printing starts from rows of cell texts.
- Source file, uploader and download metadata of a postal version, the database-role checks of the importer, and its command line.
- The conversation extractor, seeds, configuration, readiness checks, frontend, e-mail text and masking: nothing to hold them to, or one branch settles them.
