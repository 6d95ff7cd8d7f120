/** What the delivery tables show of the workers behind them: which rows an administrator may
    take to be free of a worker that can still retry, or still complete. */
module DeliveryTables {
  import opened Basics
  import opened Delivery
  import opened Reissue

  // ---------------------------------------------------------------------------
  // Reachable states
  // ---------------------------------------------------------------------------

  /** Errors are honest, and nobody reissues under a worker that may retry or complete. */
  predicate Careful(q: Queue, step: Step) {
    Fair(q, step) && Considerate(q, step)
  }

  predicate CarefulRun(q: Queue, steps: seq<Step>)
    decreases |steps|
  {
    steps == [] || (Careful(q, steps[0]) && CarefulRun(Apply(q, steps[0]), steps[1..]))
  }

  /** A row from before links were sealed: it has no envelope, and waits to be swept. */
  predicate Unsealed(r: Row) {
    (r.state.Pending? || r.state.Failed?) && r.leasedAt.None? && r.envelope.None?
  }

  /** No worker yet, and no row but unsealed ones. */
  ghost predicate Initial(q: Queue) {
    Inv(q) && Candid(q) && q.tasks == map[] && forall r <- q.rows :: Unsealed(q.rows[r])
  }

  ghost predicate Reachable(q: Queue) {
    exists q0, steps :: Initial(q0) && CarefulRun(q0, steps) && Run(q0, steps) == q
  }

  lemma {:induction false} CarefulRunAppends(q: Queue, a: seq<Step>, b: seq<Step>)
    ensures CarefulRun(q, a + b) <==> CarefulRun(q, a) && CarefulRun(Run(q, a), b)
    ensures Run(q, a + b) == Run(Run(q, a), b)
    decreases |a|
  {
    hide Apply, Careful;
    if a == [] {
      assert a + b == b;
    } else {
      CarefulRunAppends(Apply(q, a[0]), a[1..], b);
      assert (a + b)[1..] == a[1..] + b;
    }
  }

  lemma OneStepMore(q: Queue, steps: seq<Step>, last: Step)
    ensures CarefulRun(q, steps + [last]) <==> CarefulRun(q, steps) && Careful(Run(q, steps), last)
    ensures Run(q, steps + [last]) == Apply(Run(q, steps), last)
  {
    hide Apply, Careful, Run, CarefulRun;
    CarefulRunAppends(q, steps, [last]);
    RunOfOne(Run(q, steps), last);
  }

  lemma RunOfOne(q: Queue, step: Step)
    ensures Run(q, [step]) == Apply(q, step) && (CarefulRun(q, [step]) <==> Careful(q, step))
  {
    hide Apply, Careful;
    assert [step][1..] == [];
  }

  // ---------------------------------------------------------------------------
  // What holds of the rows themselves
  // ---------------------------------------------------------------------------

  /** A row that was not leased since it was issued or put back has no worker, and a delivered
      one no worker that may complete again. */
  ghost predicate Evident(q: Queue, row: Id)
    requires row in q.rows
  {
    var r := q.rows[row];
    && (r.state.Pending? ==> r.leasedAt.None?)
    && (r.leasedAt.None? && !r.state.Leased? ==> NobodyHolds(q, r.issue))
    && (r.state.Delivered? ==> forall t <- q.tasks :: q.tasks[t].envelope == r.issue ==> !MayComplete(q.tasks[t]))
  }

  ghost predicate AllEvident(q: Queue) {
    forall r <- q.rows :: Evident(q, r)
  }

  lemma HolderIsKept(q: Queue, step: Step, row: Id, t: Id)
    requires Inv(q) && row in q.rows && t in Apply(q, step).tasks && Apply(q, step).tasks[t].envelope == q.rows[row].issue
    requires q.rows[row].state.Pending? ==> !(step.Lease? && step.row == row)
    ensures t in q.tasks && q.tasks[t].envelope == q.rows[row].issue
    ensures MayComplete(Apply(q, step).tasks[t]) ==> MayComplete(q.tasks[t])
  {
    hide Inv, Apply, MayComplete;
    if t in q.tasks {
      TaskPlace(q, t);
      TaskMoves(q, step, t);
    } else {
      NewcomerHolds(q, step, row, t);
    }
  }

  /** A new worker holds the issue of the row it leases, which was pending. */
  lemma NewcomerHolds(q: Queue, step: Step, row: Id, t: Id)
    requires Inv(q) && row in q.rows && t !in q.tasks && t in Apply(q, step).tasks
    ensures step.Lease? && step.row in q.rows && q.rows[step.row].state.Pending?
    ensures Apply(q, step).tasks[t].envelope == q.rows[row].issue ==> step.row == row
  {
    hide TaskOk, CountOk, OneHolder, Eligible;
    if !step.Lease? && !step.Issue? { NoOthersCome(q, step); }
    assert RowOk(q, row);
    if step.Lease? && step.row in q.rows { assert RowOk(q, step.row); }
  }

  /** The worker that delivers the row is the one that holds its issue, and is done. */
  lemma DeliveringEnds(q: Queue, step: Step, row: Id, t: Id)
    requires Inv(q) && Candid(q) && row in q.rows && step.Complete? && step.task in q.tasks && q.tasks[step.task].row == row
    requires q.tasks[step.task].phase == Sent(true)
    requires t in Apply(q, step).tasks && t in q.tasks && q.tasks[t].envelope == q.rows[row].issue
    ensures !MayComplete(Apply(q, step).tasks[t])
  {
    hide RowOk, TaskOk, CountOk, CandidRow, Eligible, Classify;
    assert CandidTask(q, q.tasks[step.task]);
    assert t == step.task;
  }

  lemma RowStaysEvident(q: Queue, step: Step, row: Id)
    requires Inv(q) && Candid(q) && Inv(Apply(q, step)) && row in q.rows && Evident(q, row)
    ensures row in Apply(q, step).rows && Evident(Apply(q, step), row)
  {
    hide Inv, Candid, Apply, MayComplete, Eligible;
    var q', x := Apply(q, step), q.rows[row];
    RowFacts(q, row);
    if Renews(q, step, row) {
      RenewedIsPending(q, step, row);
      RowFacts(q', row);
    } else {
      RowMoves(q, step, row);
      RowFacts(q', row);
      var x' := q'.rows[row];
      if !x'.state.Pending? && !x'.state.Leased? {
        forall t | t in q'.tasks && q'.tasks[t].envelope == x.issue
          ensures t in q.tasks && q.tasks[t].envelope == x.issue && (MayComplete(q'.tasks[t]) ==> MayComplete(q.tasks[t]))
        {
          HolderIsKept(q, step, row, t);
        }
        if x'.state.Delivered? && !x.state.Delivered? {
          DeliveredWasAcceptedAndEligible(q, step, row);
          forall t | t in q'.tasks && q'.tasks[t].envelope == x.issue ensures !MayComplete(q'.tasks[t]) {
            DeliveringEnds(q, step, row, t);
          }
        }
      }
    }
  }

  lemma NewRowsArePending(q: Queue, step: Step, row: Id)
    requires row !in q.rows && row in Apply(q, step).rows
    ensures step.Issue? && step.row == row && step.envelope !in q.counts && step.tenant in q.tenants
    ensures Apply(q, step).rows[row].state.Pending? && Apply(q, step).rows[row].leasedAt.None?
  {
    hide Eligible, IsDue;
    if !step.Issue? && !step.Lease? { NoOthersCome(q, step); }
  }

  lemma StepKeepsEvident(q: Queue, step: Step)
    requires Inv(q) && Candid(q) && AllEvident(q) && Careful(q, step)
    ensures Inv(Apply(q, step)) && Candid(Apply(q, step)) && AllEvident(Apply(q, step))
  {
    hide Inv, Candid, Apply, Evident, Fair, Considerate;
    StepKeepsInv(q, step);
    StepKeepsCandid(q, step);
    var q' := Apply(q, step);
    forall r | r in q'.rows ensures Evident(q', r) {
      if r in q.rows {
        RowStaysEvident(q, step, r);
      } else {
        NewRowsArePending(q, step, r);
        RowFacts(q', r);
        PendingIsEvident(q', r);
      }
    }
  }

  lemma PendingIsEvident(q: Queue, row: Id)
    requires row in q.rows && q.rows[row].state.Pending? && q.rows[row].leasedAt.None? && NobodyHolds(q, q.rows[row].issue)
    ensures Evident(q, row)
  {
  }

  lemma {:induction false} CarefulRunKeepsInv(q: Queue, steps: seq<Step>)
    requires Inv(q) && Candid(q) && AllEvident(q) && CarefulRun(q, steps)
    ensures Inv(Run(q, steps)) && Candid(Run(q, steps)) && AllEvident(Run(q, steps))
    decreases |steps|
  {
    hide Inv, Candid, AllEvident, Apply, Careful;
    if steps != [] {
      StepKeepsEvident(q, steps[0]);
      CarefulRunKeepsInv(Apply(q, steps[0]), steps[1..]);
    }
  }

  // ---------------------------------------------------------------------------
  // Rows that are free of such workers
  // ---------------------------------------------------------------------------

  /** Leased, or failed after a lease. */
  predicate Suspect(r: Row) {
    r.state.Leased? || (r.state.Failed? && r.leasedAt.Some?)
  }

  lemma UnsuspectedRowIsFree(q: Queue, row: Id)
    requires Inv(q) && Candid(q) && AllEvident(q) && row in q.rows && !Suspect(q.rows[row])
    ensures NoneRetries(q, row) && NoneCompletes(q, row)
  {
    hide RowOk, CountOk, OneHolder, DistinctIssues;
    RowFacts(q, row);
    assert Evident(q, row) && CandidRow(q, q.rows[row]);
    forall t | t in q.tasks && q.tasks[t].row == row ensures !MayRetry(q.maxAttempts, q.tasks[t]) && !MayComplete(q.tasks[t]) {
      assert TaskOk(q, q.tasks[t]) && CandidTask(q, q.tasks[t]);
    }
  }

  lemma ExhaustedRowIsNotRetried(q: Queue, row: Id)
    requires Inv(q) && row in q.rows && q.rows[row].attempts == q.maxAttempts
    ensures NoneRetries(q, row)
  {
    hide RowOk, CountOk, OneHolder, DistinctIssues;
    forall t | t in q.tasks && q.tasks[t].row == row ensures !MayRetry(q.maxAttempts, q.tasks[t]) {
      assert TaskOk(q, q.tasks[t]);
    }
  }

  // ---------------------------------------------------------------------------
  // The same tables over other workers
  // ---------------------------------------------------------------------------

  /** Equal tables, and so the same sight for an administrator. */
  ghost predicate SameTables(q: Queue, p: Queue) {
    p.now == q.now && p.maxAttempts == q.maxAttempts && p.tenants == q.tenants && p.rows == q.rows
  }

  predicate Names(step: Step, envelope: Id) {
    (step.Issue? || step.Reissue?) && step.envelope == envelope
  }

  lemma FailsAlike(q: Queue, p: Queue, t: Task, retryable: bool)
    requires SameTables(q, p)
    ensures FailRow(p, t, retryable).rows == FailRow(q, t, retryable).rows
  {
  }

  lemma CompletesAlike(q: Queue, p: Queue, row: Id)
    requires SameTables(q, p)
    ensures CompleteRow(p, row).rows == CompleteRow(q, row).rows && StillEligible(p, row) == StillEligible(q, row)
  {
  }

  lemma SweepsAlike(q: Queue, p: Queue, kind: Sweep, chosen: set<Id>)
    requires SameTables(q, p)
    ensures SweepRows(p, kind, chosen).rows == SweepRows(q, kind, chosen).rows
  {
  }

  ghost predicate ActAlike(q: Queue, p: Queue, step: Step)
    requires Actor(step).Some?
  {
    && SameTables(Apply(q, step), Apply(p, step))
    && Lookup(Apply(p, step).tasks, Actor(step).value) == Lookup(Apply(q, step).tasks, Actor(step).value)
    && Apply(q, step).counts.Keys == q.counts.Keys && Apply(p, step).counts.Keys == p.counts.Keys
  }

  lemma FailureActsAlike(q: Queue, p: Queue, step: Step)
    requires SameTables(q, p) && (step.Fail?) && Lookup(p.tasks, step.task) == Lookup(q.tasks, step.task)
    ensures ActAlike(q, p, step)
  {
    hide Classify, FailRow;
    if step.task in q.tasks {
      var t := q.tasks[step.task];
      FailsAlike(q, p, t, t.phase.Failing? && t.phase.failure.retryable);
    }
  }

  lemma RefusalIs(q: Queue, step: Step)
    requires step.FailRefused?
    ensures step.task !in q.tasks || !q.tasks[step.task].phase.Refused? ==> Apply(q, step) == q
    ensures step.task in q.tasks && q.tasks[step.task].phase.Refused? ==>
              var q1 := if step.commits then FailRow(q, q.tasks[step.task], false) else q;
              Apply(q, step) == if step.throws.None? then q1.(tasks := q1.tasks - {step.task})
                                else Move(q1, step.task, Failing(Classify(step.throws.value)))
  {
    hide Classify, FailRow;
  }

  lemma RefusalActsAlike(q: Queue, p: Queue, step: Step)
    requires SameTables(q, p) && (step.FailRefused?) && Lookup(p.tasks, step.task) == Lookup(q.tasks, step.task)
    ensures ActAlike(q, p, step)
  {
    hide Apply, Classify, FailRow;
    RefusalIs(q, step);
    RefusalIs(p, step);
    if step.task in q.tasks { FailsAlike(q, p, q.tasks[step.task], false); }
  }

  lemma CompletionActsAlike(q: Queue, p: Queue, step: Step)
    requires SameTables(q, p) && (step.Complete?) && Lookup(p.tasks, step.task) == Lookup(q.tasks, step.task)
    ensures ActAlike(q, p, step)
  {
    hide CompleteRow;
    if step.task in q.tasks { CompletesAlike(q, p, q.tasks[step.task].row); }
  }

  lemma DueAlike(q: Queue, p: Queue, r: Row)
    requires SameTables(q, p)
    ensures IsDue(p, r) == IsDue(q, r)
  {
  }

  lemma LeaseActsAlike(q: Queue, p: Queue, step: Step)
    requires SameTables(q, p) && (step.Lease?) && Lookup(p.tasks, step.task) == Lookup(q.tasks, step.task)
    ensures ActAlike(q, p, step)
  {
    hide IsDue;
    if step.row in q.rows { DueAlike(q, p, q.rows[step.row]); }
  }

  lemma CheckActsAlike(q: Queue, p: Queue, step: Step)
    requires SameTables(q, p) && (step.Check?) && Lookup(p.tasks, step.task) == Lookup(q.tasks, step.task)
    ensures ActAlike(q, p, step)
  {
    hide StillEligible;
    if step.task in q.tasks { CompletesAlike(q, p, q.tasks[step.task].row); }
  }

  lemma SendActsAlike(q: Queue, p: Queue, step: Step)
    requires SameTables(q, p) && (step.Send?) && Lookup(p.tasks, step.task) == Lookup(q.tasks, step.task)
    ensures ActAlike(q, p, step)
  {
    hide Submitted;
  }

  lemma ThrowActsAlike(q: Queue, p: Queue, step: Step)
    requires SameTables(q, p) && (step.Throw? || step.Crash?) && Lookup(p.tasks, step.task) == Lookup(q.tasks, step.task)
    ensures ActAlike(q, p, step)
  {
    hide Classify;
  }

  /** What a worker's step does to the tables depends on the tables and on that worker. */
  lemma WorkerActsAlike(q: Queue, p: Queue, step: Step)
    requires SameTables(q, p) && Actor(step).Some?
    requires Lookup(p.tasks, Actor(step).value) == Lookup(q.tasks, Actor(step).value)
    ensures ActAlike(q, p, step)
  {
    hide SameTables, ActAlike, Lookup;
    match step
    case Fail(_) => FailureActsAlike(q, p, step);
    case FailRefused(_, _, _) => RefusalActsAlike(q, p, step);
    case Complete(_, _) => CompletionActsAlike(q, p, step);
    case Lease(_, _) => LeaseActsAlike(q, p, step);
    case Check(_) => CheckActsAlike(q, p, step);
    case Send(_, _) => SendActsAlike(q, p, step);
    case _ => ThrowActsAlike(q, p, step);
  }

  ghost predicate SurroundAlike(q: Queue, p: Queue, step: Step) {
    && SameTables(Apply(q, step), Apply(p, step))
    && Apply(q, step).tasks == q.tasks && Apply(p, step).tasks == p.tasks
    && q.counts.Keys <= Apply(q, step).counts.Keys
    && Apply(p, step).counts.Keys == p.counts.Keys + (Apply(q, step).counts.Keys - q.counts.Keys)
    && (forall e <- Apply(q, step).counts :: e in q.counts || Names(step, e))
  }

  lemma IssuesActAlike(q: Queue, p: Queue, step: Step)
    requires SameTables(q, p) && (step.Issue? || step.Reissue?) && (step.envelope in q.counts <==> step.envelope in p.counts)
    ensures SurroundAlike(q, p, step)
  {
  }

  lemma DriftsActAlike(q: Queue, p: Queue, step: Step)
    requires SameTables(q, p) && Actor(step).None? && !step.Issue? && !step.Reissue?
    ensures SurroundAlike(q, p, step)
  {
    hide SweepRows;
    if step.Swept? { SweepsAlike(q, p, step.kind, step.chosen); }
  }

  lemma SurroundingsActAlike(q: Queue, p: Queue, step: Step)
    requires SameTables(q, p) && Actor(step).None?
    requires forall e :: Names(step, e) ==> (e in q.counts <==> e in p.counts)
    ensures SurroundAlike(q, p, step)
  {
    hide SurroundAlike, SameTables;
    if step.Issue? || step.Reissue? {
      assert Names(step, step.envelope);
      IssuesActAlike(q, p, step);
    } else {
      DriftsActAlike(q, p, step);
    }
  }

  lemma OthersKeepStill(q: Queue, step: Step, t: Id)
    requires Actor(step) != Some(t)
    ensures Lookup(Apply(q, step).tasks, t) == Lookup(q.tasks, t)
  {
    hide Classify, Eligible, FailRow, CompleteRow, Submitted, StillEligible, IsDue;
  }

  // ---------------------------------------------------------------------------
  // A second run beside the first
  // ---------------------------------------------------------------------------

  /** Two workers and an issue that the first run never names: one that holds a finished issue
      of the row and is about to fail for good, and one that takes its last lease. */
  datatype Spare = Spare(blocked: Id, held: Id, issue: Id)

  ghost predicate Apart(q: Queue, x: Spare) {
    x.blocked != x.held && x.blocked !in q.tasks && x.held !in q.tasks && x.issue !in q.counts
  }

  predicate Spared(step: Step, x: Spare) {
    (step.Lease? ==> step.task != x.blocked && step.task != x.held) && !Names(step, x.issue)
  }

  predicate Blocked(t: Task, row: Id) {
    t.row == row && t.phase.Failing? && !t.phase.failure.retryable
  }

  /** The same tables and, but for the hidden workers and the two spare ones, the same workers. */
  ghost predicate Beside(q: Queue, p: Queue, row: Id, x: Spare, hidden: set<Id>) {
    && SameTables(q, p) && p.counts.Keys == q.counts.Keys + {x.issue}
    && (forall t: Id :: t != x.blocked && t != x.held ==>
          Lookup(p.tasks, t) == if t in hidden then None else Lookup(q.tasks, t))
    && (x.blocked in p.tasks ==> Blocked(p.tasks[x.blocked], row))
    && (x.held in p.tasks ==> p.tasks[x.held].row == row)
  }

  ghost predicate Spares(step: Step, x: Spare, hidden: set<Id>) {
    && Spared(step, x)
    && (Actor(step).Some? ==> var t := Actor(step).value; t !in hidden && t != x.blocked && t != x.held)
  }

  lemma FollowStep(q: Queue, p: Queue, row: Id, x: Spare, hidden: set<Id>, step: Step)
    requires Apart(q, x) && Beside(q, p, row, x, hidden) && Spares(step, x, hidden)
    ensures Apart(Apply(q, step), x) && Beside(Apply(q, step), Apply(p, step), row, x, hidden)
    ensures Lookup(Apply(p, step).tasks, x.blocked) == Lookup(p.tasks, x.blocked)
    ensures Lookup(Apply(p, step).tasks, x.held) == Lookup(p.tasks, x.held)
  {
    hide Apply, Blocked;
    if Actor(step).Some? { WorkerActsAlike(q, p, step); } else { SurroundingsActAlike(q, p, step); }
    OthersKeepStill(q, step, x.blocked);
    OthersKeepStill(q, step, x.held);
    OthersKeepStill(p, step, x.blocked);
    OthersKeepStill(p, step, x.held);
    forall t: Id | t != x.blocked && t != x.held
      ensures Lookup(Apply(p, step).tasks, t) == if t in hidden then None else Lookup(Apply(q, step).tasks, t)
    {
      if Actor(step) != Some(t) {
        OthersKeepStill(q, step, t);
        OthersKeepStill(p, step, t);
      }
    }
  }

  lemma CareIsAlike(q: Queue, p: Queue, row: Id, x: Spare, hidden: set<Id>, step: Step)
    requires Beside(q, p, row, x, hidden) && Spares(step, x, hidden) && Careful(q, step)
    requires step.Reissue? && step.row == row ==> x.held !in p.tasks
    ensures Careful(p, step)
  {
    hide Classify, MayRetry, MayComplete;
    if step.Throw? { assert Lookup(p.tasks, step.task) == Lookup(q.tasks, step.task); }
    if step.Reissue? {
      forall t | t in p.tasks && p.tasks[t].row == step.row
        ensures !MayRetry(p.maxAttempts, p.tasks[t]) && !MayComplete(p.tasks[t])
      {
        if t == x.blocked { BlockedIsHarmless(p.maxAttempts, p.tasks[t], row); }
        if t != x.blocked && t != x.held { assert Lookup(p.tasks, t) == Lookup(q.tasks, t); }
      }
    }
  }

  lemma BlockedIsHarmless(maxAttempts: nat, t: Task, row: Id)
    requires Blocked(t, row)
    ensures !MayRetry(maxAttempts, t) && !MayComplete(t)
  {
  }

  lemma AbsentWorkerIdles(q: Queue, step: Step)
    requires Actor(step).Some? && Actor(step).value !in q.tasks && !step.Lease?
    ensures Apply(q, step) == q
  {
    if step.Crash? { assert q.tasks - {step.task} == q.tasks; }
  }

  // ---------------------------------------------------------------------------
  // Armed: a worker of an earlier issue is about to fail the row
  // ---------------------------------------------------------------------------

  ghost predicate Armed(q: Queue, p: Queue, row: Id, x: Spare) {
    Apart(q, x) && Beside(q, p, row, x, {}) && x.blocked in p.tasks && x.held !in p.tasks
  }

  lemma ArmedNext(q: Queue, p: Queue, row: Id, x: Spare, step: Step) returns (b: seq<Step>)
    requires Armed(q, p, row, x) && Spared(step, x) && Careful(q, step)
    ensures CarefulRun(p, b) && Armed(Apply(q, step), Run(p, b), row, x)
  {
    hide Apply, Careful, Apart, Beside;
    if Actor(step) == Some(x.blocked) || Actor(step) == Some(x.held) {
      AbsentIdles(q, x, step);
      b := [];
    } else {
      b := [step];
      RunOfOne(p, step);
      CareIsAlike(q, p, row, x, {}, step);
      FollowStep(q, p, row, x, {}, step);
    }
  }

  lemma AbsentIdles(q: Queue, x: Spare, step: Step)
    requires Apart(q, x) && Spared(step, x) && (Actor(step) == Some(x.blocked) || Actor(step) == Some(x.held))
    ensures Apply(q, step) == q
  {
    AbsentWorkerIdles(q, step);
  }

  const FATAL := Thrown("Fatal", None)

  lemma FatalIsFinal()
    ensures !Classify(FATAL).retryable
  {
    assert |Normalized("Fatal")| == 5;
  }

  function Waiting(q: Queue, tenant: Id, issue: Id, expires: Time): Row {
    Row(Pending, 0, q.now, None, Some(issue), issue, tenant, false, false, expires)
  }

  /** A worker takes the row, fails for good, and is overtaken by a reissue. */
  lemma ArmingRun(q: Queue, row: Id, tenant: Id, x: Spare, envelope: Id, expires: Time)
    requires row in q.rows && q.rows[row] == Waiting(q, tenant, x.issue, q.now + 1)
    requires tenant in q.tenants && q.tenants[tenant] && envelope !in q.counts && x.blocked !in q.tasks
    requires NoneRetries(q, row) && NoneCompletes(q, row)
    ensures var b := [Lease(row, x.blocked), Throw(x.blocked, FATAL), Step.Reissue(row, envelope, expires)];
            && CarefulRun(q, b)
            && Run(q, b) == q.(rows := q.rows[row := Waiting(q, tenant, envelope, expires)],
                               tasks := q.tasks[x.blocked := Task(row, 1, x.issue, Failing(Classify(FATAL)))],
                               counts := q.counts[envelope := Count(0, 0)])
  {
    hide Careful, CarefulRun, Run, Classify;
    var a, b, c := Lease(row, x.blocked), Throw(x.blocked, FATAL), Step.Reissue(row, envelope, expires);
    assert [a, b, c] == [a, b] + [c] && [a, b] == [a] + [b];
    FatalIsFinal();
    RunOfOne(q, a);
    OneStepMore(q, [a], b);
    OneStepMore(q, [a, b], c);
    ArmingSteps(q, row, tenant, x, envelope, expires);
  }

  lemma ArmingSteps(q: Queue, row: Id, tenant: Id, x: Spare, envelope: Id, expires: Time)
    requires row in q.rows && q.rows[row] == Waiting(q, tenant, x.issue, q.now + 1)
    requires tenant in q.tenants && q.tenants[tenant] && envelope !in q.counts && x.blocked !in q.tasks
    requires NoneRetries(q, row) && NoneCompletes(q, row)
    ensures var q1 := Apply(q, Lease(row, x.blocked));
            var q2 := Apply(q1, Throw(x.blocked, FATAL));
            && Careful(q, Lease(row, x.blocked)) && Careful(q1, Throw(x.blocked, FATAL))
            && Careful(q2, Step.Reissue(row, envelope, expires))
            && Apply(q2, Step.Reissue(row, envelope, expires))
            == q.(rows := q.rows[row := Waiting(q, tenant, envelope, expires)],
                               tasks := q.tasks[x.blocked := Task(row, 1, x.issue, Failing(Classify(FATAL)))],
                               counts := q.counts[envelope := Count(0, 0)])
  {
    hide Classify;
    FatalIsFinal();
    var q1 := Apply(q, Lease(row, x.blocked));
    var q2 := Apply(q1, Throw(x.blocked, FATAL));
    assert q2.tasks == q.tasks[x.blocked := Task(row, 1, x.issue, Failing(Classify(FATAL)))];
    assert q2.tenants == q.tenants && q2.counts == q.counts && q2.now == q.now;
    assert q2.rows == q.rows[row := q2.rows[row]];
  }

  /** Where the arming run ends is where the plain step ends, but for the blocked worker. */
  lemma ArmingEnds(q: Queue, q': Queue, p: Queue, row: Id, x: Spare, envelope: Id, f: Failure)
    requires Apart(q, x) && q'.tasks == q.tasks && q'.counts.Keys == q.counts.Keys + {envelope} && envelope != x.issue
    requires SameTables(q', p) && !f.retryable && p.counts.Keys == q.counts.Keys + {x.issue, envelope}
    requires p.tasks == q.tasks[x.blocked := Task(row, 1, x.issue, Failing(f))]
    ensures Armed(q', p, row, x)
  {
  }

  lemma ArmByReissue(q: Queue, row: Id, x: Spare, step: Step) returns (b: seq<Step>)
    requires Apart(q, x) && Spared(step, x) && Careful(q, step) && Renews(q, step, row)
    ensures CarefulRun(q, b) && Armed(Apply(q, step), Run(q, b), row, x)
  {
    hide CarefulRun, Run, Classify, MayRetry, MayComplete, Armed;
    var first := Step.Reissue(row, x.issue, q.now + 1);
    var q1, tenant := Apply(q, first), q.rows[row].tenant;
    var rest := [Lease(row, x.blocked), Throw(x.blocked, FATAL), Step.Reissue(row, step.envelope, step.expires)];
    ArmingRun(q1, row, tenant, x, step.envelope, step.expires);
    RunOfOne(q, first);
    CarefulRunAppends(q, [first], rest);
    b := [first] + rest;
    FatalIsFinal();
    assert Names(step, step.envelope);
    ArmingEnds(q, Apply(q, step), Run(q, b), row, x, step.envelope, Classify(FATAL));
  }

  lemma ArmByIssue(q: Queue, row: Id, x: Spare, step: Step) returns (b: seq<Step>)
    requires Inv(q) && Apart(q, x) && Spared(step, x)
    requires step.Issue? && step.row == row && row !in q.rows && step.envelope !in q.counts && step.tenant in q.tenants
    ensures CarefulRun(q, b) && Armed(Apply(q, step), Run(q, b), row, x)
  {
    hide Inv, CarefulRun, Run, Classify, MayRetry, MayComplete, Armed;
    var tenant := step.tenant;
    var open, first, close := SetTenant(tenant, true), Issue(row, tenant, x.issue, q.now + 1), SetTenant(tenant, q.tenants[tenant]);
    var q1 := Apply(Apply(q, open), first);
    var rest := [Lease(row, x.blocked), Throw(x.blocked, FATAL), Step.Reissue(row, step.envelope, step.expires)];
    forall t | t in q.tasks ensures q.tasks[t].row != row { TaskPlace(q, t); }
    ArmingRun(q1, row, tenant, x, step.envelope, step.expires);
    RunOfOne(q, open);
    OneStepMore(q, [open], first);
    CarefulRunAppends(q, [open] + [first], rest);
    OneStepMore(q, [open] + [first] + rest, close);
    b := [open] + [first] + rest + [close];
    FatalIsFinal();
    assert Names(step, step.envelope);
    assert q.tenants[tenant := true][tenant := q.tenants[tenant]] == q.tenants;
    ArmingEnds(q, Apply(q, step), Run(q, b), row, x, step.envelope, Classify(FATAL));
  }

  // ---------------------------------------------------------------------------
  // Shadow: another worker took the row's last lease and has done nothing since
  // ---------------------------------------------------------------------------

  function Holders(q: Queue, row: Id): set<Id> {
    if row !in q.rows then {} else set t | t in q.tasks && q.tasks[t].envelope == q.rows[row].issue
  }

  ghost predicate Shadow(q: Queue, p: Queue, row: Id, x: Spare) {
    && Apart(q, x) && row in q.rows && Beside(q, p, row, x, Holders(q, row))
    && x.held in p.tasks && p.tasks[x.held] == Task(row, q.rows[row].attempts, q.rows[row].issue, Held)
    && (q.rows[row].state.Leased? ==> x.blocked in p.tasks)
  }

  /** The lease is taken by the spare worker instead. */
  lemma ShadowStarts(q: Queue, p: Queue, row: Id, x: Spare, step: Step)
    requires Inv(q) && Armed(q, p, row, x) && Spared(step, x)
    requires step.Lease? && step.row == row && row in q.rows && IsDue(q, q.rows[row]) && step.task !in q.tasks
    ensures CarefulRun(p, [Lease(row, x.held)]) && Shadow(Apply(q, step), Run(p, [Lease(row, x.held)]), row, x)
  {
    hide Inv, Eligible, Careful, CarefulRun, Run, Lookup;
    RowFacts(q, row);
    DueAlike(q, p, q.rows[row]);
    RunOfOne(p, Lease(row, x.held));
    LeaseIsCareful(p, row, x.held);
    var q', p' := Apply(q, step), Apply(p, Lease(row, x.held));
    forall t | t in Holders(q', row) ensures t == step.task { if t in q.tasks { assert q.tasks[t].envelope != q.rows[row].issue; } }
    assert Holders(q', row) == {step.task};
    assert Lookup(p.tasks, step.task) == Lookup(q.tasks, step.task);
    LookupsAfterLease(q, p, row, x, step.task);
  }

  lemma LeaseIsCareful(q: Queue, row: Id, task: Id)
    ensures Careful(q, Lease(row, task))
  {
  }

  lemma LookupsAfterLease(q: Queue, p: Queue, row: Id, x: Spare, task: Id)
    requires Armed(q, p, row, x) && row in q.rows && IsDue(q, q.rows[row]) && task !in q.tasks
    requires task != x.blocked && task != x.held
    ensures IsDue(p, q.rows[row])
    ensures var q', p' := LeaseRow(q, row, task), LeaseRow(p, row, x.held);
            forall t: Id :: t != x.blocked && t != x.held ==>
                 Lookup(p'.tasks, t) == if t == task then None else Lookup(q'.tasks, t)
  {
    hide Eligible;
    DueAlike(q, p, q.rows[row]);
    assert Lookup(p.tasks, task) == Lookup(q.tasks, task);
  }

  lemma HoldersStay(q: Queue, row: Id, step: Step)
    requires Inv(q) && row in q.rows && !q.rows[row].state.Pending? && !Renews(q, step, row)
    requires forall t <- Holders(q, row) :: Actor(step) != Some(t)
    ensures row in Apply(q, step).rows && Apply(q, step).rows[row].issue == q.rows[row].issue
    ensures Holders(Apply(q, step), row) == Holders(q, row)
  {
    hide Inv, Apply, IsDue;
    RowMoves(q, step, row);
    forall t | t in Holders(q, row) ensures t in Holders(Apply(q, step), row) { OthersKeepStill(q, step, t); }
    forall t | t in Holders(Apply(q, step), row) ensures t in Holders(q, row) { HolderIsKept(q, step, row, t); }
  }

  /** A step that does not belong to a holder of the row is taken in the shadow too. */
  lemma ShadowFollows(q: Queue, p: Queue, row: Id, x: Spare, step: Step)
    requires Inv(q) && Shadow(q, p, row, x) && Suspect(q.rows[row]) && Careful(q, step)
    requires Spares(step, x, Holders(q, row)) && !((step.Issue? || step.Reissue?) && step.row == row)
    ensures CarefulRun(p, [step]) && Shadow(Apply(q, step), Run(p, [step]), row, x)
  {
    hide Inv, Apply, Careful, Apart, Beside, Spared, Eligible, Holders, Classify;
    RunOfOne(p, step);
    CareIsAlike(q, p, row, x, Holders(q, row), step);
    FollowStep(q, p, row, x, Holders(q, row), step);
    HoldersStay(q, row, step);
    RowMoves(q, step, row);
  }

  /** A worker's own step changes its row and itself. */
  ghost predicate OwnStep(q: Queue, q': Queue, row: Id, t: Id) {
    && q'.now == q.now && q'.maxAttempts == q.maxAttempts && q'.tenants == q.tenants
    && q'.counts.Keys == q.counts.Keys && q'.rows.Keys == q.rows.Keys
    && (forall r <- q.rows :: r != row ==> q'.rows[r] == q.rows[r])
    && (t in q'.tasks ==> t in q.tasks && q'.tasks[t].envelope == q.tasks[t].envelope)
  }

  lemma SettlingIsOwn(q: Queue, step: Step)
    requires Settling(step) && step.task in q.tasks
    ensures OwnStep(q, Apply(q, step), q.tasks[step.task].row, step.task)
  {
    hide Classify, Eligible;
  }

  lemma WorkingIsOwn(q: Queue, step: Step)
    requires (step.Check? || step.Send? || step.Throw? || step.Crash?) && step.task in q.tasks
    ensures OwnStep(q, Apply(q, step), q.tasks[step.task].row, step.task)
  {
    hide Classify, StillEligible;
  }

  ghost predicate OthersStay(q: Queue, q': Queue, t: Id) {
    forall o: Id :: o != t ==> Lookup(q'.tasks, o) == Lookup(q.tasks, o)
  }

  lemma OwnStepHolders(q: Queue, q': Queue, row: Id, t: Id, x: Spare)
    requires Apart(q, x) && row in q.rows && t in Holders(q, row) && OwnStep(q, q', row, t) && OthersStay(q, q', t)
    requires q'.rows[row].issue == q.rows[row].issue
    ensures Apart(q', x) && Holders(q', row) <= Holders(q, row)
    ensures forall o: Id :: (if o in Holders(q', row) then None else Lookup(q'.tasks, o))
                         == (if o in Holders(q, row) then None else Lookup(q.tasks, o))
  {
    assert Lookup(q'.tasks, x.blocked) == Lookup(q.tasks, x.blocked) && Lookup(q'.tasks, x.held) == Lookup(q.tasks, x.held);
    forall o | o in Holders(q', row) ensures o in Holders(q, row) {
      if o != t { assert Lookup(q'.tasks, o) == Lookup(q.tasks, o); }
    }
    forall o: Id
      ensures (if o in Holders(q', row) then None else Lookup(q'.tasks, o))
           == (if o in Holders(q, row) then None else Lookup(q.tasks, o))
    {
      if o != t { assert Lookup(q'.tasks, o) == Lookup(q.tasks, o); }
    }
  }

  lemma ShadowWaits(q: Queue, q': Queue, p: Queue, row: Id, x: Spare, t: Id)
    requires Shadow(q, p, row, x) && t in Holders(q, row) && OwnStep(q, q', row, t) && OthersStay(q, q', t)
    requires q'.rows[row] == q.rows[row]
    ensures Shadow(q', p, row, x)
  {
    hide Holders, Lookup, Apart;
    OwnStepHolders(q, q', row, t, x);
    assert q'.rows == q.rows;
  }

  lemma BlockedFails(q: Queue, q': Queue, p: Queue, row: Id, x: Spare, t: Id)
    requires Shadow(q, p, row, x) && t in Holders(q, row) && OwnStep(q, q', row, t) && OthersStay(q, q', t)
    requires q.rows[row].state.Leased? && q'.rows[row] == Dropped(q.rows[row])
    ensures CarefulRun(p, [Fail(x.blocked)]) && Shadow(q', Run(p, [Fail(x.blocked)]), row, x)
  {
    hide Holders, Apart, CarefulRun, Run;
    OwnStepHolders(q, q', row, t, x);
    RunOfOne(p, Fail(x.blocked));
    var p' := Apply(p, Fail(x.blocked));
    assert p'.rows == p.rows[row := Dropped(p.rows[row])] && p'.tasks == p.tasks - {x.blocked};
    assert q'.rows == p'.rows;
    forall o: Id | o != x.blocked ensures Lookup(p'.tasks, o) == Lookup(p.tasks, o) {}
  }

  /** Whatever the holder does that leaves the row suspect, the shadow can match: it stands
      by, or the blocked worker fails the row. */
  lemma ShadowStandsBy(q: Queue, p: Queue, row: Id, x: Spare, step: Step) returns (b: seq<Step>)
    requires Inv(q) && Shadow(q, p, row, x) && Suspect(q.rows[row]) && Spared(step, x)
    requires Actor(step).Some? && Actor(step).value in Holders(q, row)
    requires row in Apply(q, step).rows && Suspect(Apply(q, step).rows[row])
    ensures CarefulRun(p, b) && Shadow(Apply(q, step), Run(p, b), row, x)
  {
    hide Inv, Apply, Classify, Eligible, Shadow;
    var q', t := Apply(q, step), Actor(step).value;
    b := [];
    if step.Lease? {
      TakenLeaseIdles(q, step);
    } else {
      HolderOfIssueIsOnRow(q, t, row);
      if Settling(step) { SettlingIsOwn(q, step); } else { WorkingIsOwn(q, step); }
      RowMoves(q, step, row);
      forall o: Id | o != t ensures Lookup(q'.tasks, o) == Lookup(q.tasks, o) { OthersKeepStill(q, step, o); }
      if q'.rows[row] == q.rows[row] {
        ShadowWaits(q, q', p, row, x, t);
      } else {
        b := [Fail(x.blocked)];
        BlockedFails(q, q', p, row, x, t);
      }
    }
  }

  lemma TakenLeaseIdles(q: Queue, step: Step)
    requires step.Lease? && step.task in q.tasks
    ensures Apply(q, step) == q
  {
  }

  lemma NamedRowIdles(q: Queue, step: Step)
    requires (step.Issue? || step.Reissue?) && step.row in q.rows && !Renews(q, step, step.row)
    ensures Apply(q, step) == q
  {
  }

  lemma ShadowNext(q: Queue, p: Queue, row: Id, x: Spare, step: Step) returns (b: seq<Step>)
    requires Inv(q) && Shadow(q, p, row, x) && Suspect(q.rows[row]) && Spared(step, x) && Careful(q, step) && !Renews(q, step, row)
    requires row in Apply(q, step).rows && Suspect(Apply(q, step).rows[row])
    ensures CarefulRun(p, b) && Shadow(Apply(q, step), Run(p, b), row, x)
  {
    hide Inv, Apply, Careful, Suspect, Holders, Apart, Beside, Renews;
    b := [];
    if Actor(step) == Some(x.blocked) || Actor(step) == Some(x.held) {
      AbsentIdles(q, x, step);
    } else if (step.Issue? || step.Reissue?) && step.row == row {
      NamedRowIdles(q, step);
    } else if Actor(step).Some? && Actor(step).value in Holders(q, row) {
      b := ShadowStandsBy(q, p, row, x, step);
    } else {
      b := [step];
      ShadowFollows(q, p, row, x, step);
    }
  }

  // ---------------------------------------------------------------------------
  // Every run has them
  // ---------------------------------------------------------------------------

  lemma UnsealedStays(q: Queue, step: Step, row: Id)
    requires row in q.rows && Unsealed(q.rows[row]) && !Renews(q, step, row)
    ensures row in Apply(q, step).rows && Unsealed(Apply(q, step).rows[row])
  {
    hide Apply, Eligible;
    RowMoves(q, step, row);
  }

  /** A row becomes suspect by being leased. */
  lemma LeasesMakeSuspect(q: Queue, step: Step, row: Id)
    requires row in q.rows && Evident(q, row) && !Suspect(q.rows[row]) && !Renews(q, step, row)
    requires row in Apply(q, step).rows && Suspect(Apply(q, step).rows[row])
    ensures step.Lease? && step.row == row && IsDue(q, q.rows[row]) && step.task !in q.tasks
  {
    hide Apply, Eligible;
    RowMoves(q, step, row);
    if step.Lease? { TakenOrLeased(q, step, row); }
  }

  lemma TakenOrLeased(q: Queue, step: Step, row: Id)
    requires step.Lease? && row in q.rows && row in Apply(q, step).rows && Apply(q, step).rows[row] != q.rows[row]
    ensures step.row == row && IsDue(q, q.rows[row]) && step.task !in q.tasks
  {
  }

  ghost predicate Arms(q0: Queue, a: seq<Step>, q: Queue, row: Id, x: Spare) {
    CarefulRun(q0, a) && Armed(q, Run(q0, a), row, x)
  }

  ghost predicate Shadows(q0: Queue, s: seq<Step>, q: Queue, row: Id, x: Spare) {
    CarefulRun(q0, s) && Shadow(q, Run(q0, s), row, x)
  }

  /** One more step of the first run: the armed run goes on, or is set up afresh. */
  lemma ArmsNext(q0: Queue, front: seq<Step>, a: seq<Step>, row: Id, x: Spare, step: Step) returns (a': seq<Step>)
    requires CarefulRun(q0, front) && Inv(Run(q0, front)) && Apart(Run(q0, front), x)
    requires Careful(Run(q0, front), step) && Spared(step, x)
    requires row in Run(q0, front).rows && !Unsealed(Run(q0, front).rows[row]) ==> Arms(q0, a, Run(q0, front), row, x)
    requires row in Apply(Run(q0, front), step).rows && !Unsealed(Apply(Run(q0, front), step).rows[row])
    ensures Arms(q0, a', Apply(Run(q0, front), step), row, x)
  {
    hide Run, CarefulRun, Apply, Inv, Careful, Armed, Unsealed, Spared, Apart;
    var q := Run(q0, front);
    if row !in q.rows {
      NewRowsArePending(q, step, row);
      var b := ArmByIssue(q, row, x, step);
      CarefulRunAppends(q0, front, b);
      a' := front + b;
    } else if Renews(q, step, row) {
      var b := ArmByReissue(q, row, x, step);
      CarefulRunAppends(q0, front, b);
      a' := front + b;
    } else {
      if Unsealed(q.rows[row]) { UnsealedStays(q, step, row); }
      var b := ArmedNext(q, Run(q0, a), row, x, step);
      CarefulRunAppends(q0, a, b);
      a' := a + b;
    }
  }

  /** One more step of the first run that leaves the row suspect: the shadow starts, or goes on. */
  lemma ShadowsNext(q0: Queue, q: Queue, a: seq<Step>, s: seq<Step>, row: Id, x: Spare, step: Step) returns (s': seq<Step>)
    requires Inv(q) && AllEvident(q) && Careful(q, step) && Spared(step, x)
    requires row in q.rows && !Unsealed(q.rows[row]) ==> Arms(q0, a, q, row, x)
    requires row in q.rows && Suspect(q.rows[row]) ==> Shadows(q0, s, q, row, x)
    requires row in Apply(q, step).rows && Suspect(Apply(q, step).rows[row])
    ensures Shadows(q0, s', Apply(q, step), row, x)
  {
    hide Run, CarefulRun, Apply, Inv, Careful, Armed, Shadow, Spared, Evident, Eligible;
    if row !in q.rows { NewRowsArePending(q, step, row); }
    if Renews(q, step, row) { RenewedIsPending(q, step, row); }
    if Suspect(q.rows[row]) {
      var b := ShadowNext(q, Run(q0, s), row, x, step);
      CarefulRunAppends(q0, s, b);
      s' := s + b;
    } else {
      LeasesMakeSuspect(q, step, row);
      ShadowStarts(q, Run(q0, a), row, x, step);
      CarefulRunAppends(q0, a, [Lease(row, x.held)]);
      s' := a + [Lease(row, x.held)];
    }
  }

  lemma ApartStays(q: Queue, x: Spare, step: Step)
    requires Apart(q, x) && Spared(step, x)
    ensures Apart(Apply(q, step), x)
  {
    hide Classify, Eligible, FailRow, CompleteRow, StillEligible, IsDue;
    assert Names(step, x.issue) == false;
  }

  lemma {:induction false} EveryRunIsShadowed(q0: Queue, steps: seq<Step>, row: Id, x: Spare)
      returns (a: seq<Step>, s: seq<Step>)
    requires Initial(q0) && CarefulRun(q0, steps) && Apart(q0, x) && forall step <- steps :: Spared(step, x)
    ensures Apart(Run(q0, steps), x)
    ensures row in Run(q0, steps).rows && !Unsealed(Run(q0, steps).rows[row]) ==> Arms(q0, a, Run(q0, steps), row, x)
    ensures row in Run(q0, steps).rows && Suspect(Run(q0, steps).rows[row]) ==> Shadows(q0, s, Run(q0, steps), row, x)
    decreases |steps|
  {
    hide CarefulRun, Apply, Inv, Candid, Careful, Armed, Shadow, Spared, Apart, Evident, Arms, Shadows;
    if steps == [] {
      a, s := [], [];
      assert Run(q0, steps) == q0;
    } else {
      hide Run;
      var front, last := steps[..|steps| - 1], steps[|steps| - 1];
      assert steps == front + [last];
      OneStepMore(q0, front, last);
      a, s := EveryRunIsShadowed(q0, front, row, x);
      var q := Run(q0, front);
      NobodyIsEvident(q0);
      CarefulRunKeepsInv(q0, front);
      ApartStays(q, x, last);
      var q' := Apply(q, last);
      if row in q'.rows && Suspect(q'.rows[row]) { s := ShadowsNext(q0, q, a, s, row, x, last); }
      if row in q'.rows && !Unsealed(q'.rows[row]) { a := ArmsNext(q0, front, a, row, x, last); }
    }
  }

  lemma NobodyIsEvident(q: Queue)
    requires Initial(q)
    ensures AllEvident(q)
  {
  }

  // ---------------------------------------------------------------------------
  // What the tables show
  // ---------------------------------------------------------------------------

  lemma ReachableFacts(q: Queue)
    requires Reachable(q)
    ensures Inv(q) && Candid(q) && AllEvident(q)
  {
    hide Run, CarefulRun, Inv, Candid, AllEvident;
    var q0, steps :| Initial(q0) && CarefulRun(q0, steps) && Run(q0, steps) == q;
    NobodyIsEvident(q0);
    CarefulRunKeepsInv(q0, steps);
  }

  predicate NamesBelow(step: Step, n: nat) {
    (step.Lease? ==> step.task < n) && (step.Issue? || step.Reissue? ==> step.envelope < n)
  }

  function Named(step: Step): nat {
    if step.Lease? then step.task else if step.Issue? || step.Reissue? then step.envelope else 0
  }

  lemma {:induction false} SomethingAbove(q: Queue, steps: seq<Step>) returns (n: nat)
    ensures (forall e <- q.counts :: e < n) && (forall step <- steps :: NamesBelow(step, n))
  {
    if steps == [] {
      n := if q.counts == map[] then 0 else MaxOf(q.counts.Keys) + 1;
    } else {
      var front, last := steps[..|steps| - 1], steps[|steps| - 1];
      n := SomethingAbove(q, front);
      assert steps == front + [last];
      n := if n <= Named(last) then Named(last) + 1 else n;
    }
  }

  /** Identifiers that a run does not use. */
  lemma SomethingSpare(q: Queue, steps: seq<Step>) returns (x: Spare)
    requires q.tasks == map[]
    ensures Apart(q, x) && forall step <- steps :: Spared(step, x)
  {
    var n := SomethingAbove(q, steps);
    x := Spare(n, n + 1, n);
    forall step | step in steps ensures Spared(step, x) { assert NamesBelow(step, n); }
  }

  /** The tables cannot tell a suspect row from one whose last lease is held by a worker that
      has done nothing yet. */
  lemma SuspectRowsMayBeHeld(q: Queue, row: Id) returns (p: Queue)
    requires Reachable(q) && row in q.rows && Suspect(q.rows[row])
    ensures Reachable(p) && SameTables(q, p)
    ensures !NoneCompletes(p, row) && (q.rows[row].attempts != q.maxAttempts ==> !NoneRetries(p, row))
  {
    hide Run, CarefulRun, Inv, Candid, AllEvident, Spared, Apart;
    ReachableFacts(q);
    RowFacts(q, row);
    var q0, steps :| Initial(q0) && CarefulRun(q0, steps) && Run(q0, steps) == q;
    var x := SomethingSpare(q0, steps);
    var a, s := EveryRunIsShadowed(q0, steps, row, x);
    p := Run(q0, s);
    assert Shadow(q, p, row, x);
  }

  /** What the tables show of a row decides whether a worker may still retry it: none may, in
      whatever reachable state has these tables, exactly when the row is out of attempts, or
      neither leased nor failed after a lease. */
  lemma NoRetrierIffTablesShow(q: Queue, row: Id)
    requires Reachable(q) && row in q.rows
    ensures (forall p :: Reachable(p) && SameTables(q, p) ==> NoneRetries(p, row))
            <==> !Suspect(q.rows[row]) || q.rows[row].attempts == q.maxAttempts
  {
    hide Reachable, NoneRetries, NoneCompletes, Suspect, Inv, Candid, AllEvident;
    if !Suspect(q.rows[row]) || q.rows[row].attempts == q.maxAttempts {
      forall p | Reachable(p) && SameTables(q, p) ensures NoneRetries(p, row) {
        ReachableFacts(p);
        if Suspect(q.rows[row]) { ExhaustedRowIsNotRetried(p, row); } else { UnsuspectedRowIsFree(p, row); }
      }
    } else {
      var p := SuspectRowsMayBeHeld(q, row);
    }
  }

  /** The same for a worker that may still complete. */
  lemma NoCompleterIffTablesShow(q: Queue, row: Id)
    requires Reachable(q) && row in q.rows
    ensures (forall p :: Reachable(p) && SameTables(q, p) ==> NoneCompletes(p, row)) <==> !Suspect(q.rows[row])
  {
    hide Reachable, NoneRetries, NoneCompletes, Suspect, Inv, Candid, AllEvident;
    if Suspect(q.rows[row]) {
      var p := SuspectRowsMayBeHeld(q, row);
    } else {
      forall p | Reachable(p) && SameTables(q, p) ensures NoneCompletes(p, row) {
        ReachableFacts(p);
        UnsuspectedRowIsFree(p, row);
      }
    }
  }
}
