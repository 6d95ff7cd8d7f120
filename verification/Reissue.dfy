/** When an invitation may be issued again while workers are still about: the lease carries
    no fencing token, so what a surviving worker can still do decides. */
module Reissue {
  import opened Basics
  import opened Delivery

  // ---------------------------------------------------------------------------
  // One acceptance for each issue
  // ---------------------------------------------------------------------------

  ghost predicate AtMostOnce(q: Queue) {
    forall e <- q.counts :: q.counts[e].accepted <= 1
  }

  lemma InvIsAtMostOnce(q: Queue)
    requires Inv(q)
    ensures AtMostOnce(q)
  {
    forall e | e in q.counts ensures q.counts[e].accepted <= 1 { assert CountOk(q, e); }
  }

  /** An error of a retryable class. */
  const UNAVAILABLE := Thrown("Busy", Some(503))

  lemma UnavailableIsRetryable()
    ensures Classify(UNAVAILABLE).retryable
  {
    assert |Normalized("Busy")| == 4;
  }

  /** A row, a surviving worker of it, two workers to come, and the new issue. */
  datatype Cast = Cast(row: Id, prior: Id, first: Id, second: Id, issue: Id)

  datatype Scene = Scene(now: Time, r: Row, prior: Option<Task>, first: Option<Task>, second: Option<Task>, seen: Count)

  function Lookup(tasks: map<Id, Task>, t: Id): Option<Task> {
    if t in tasks then Some(tasks[t]) else None
  }

  ghost predicate Shows(q: Queue, c: Cast, s: Scene) {
    && c.prior != c.first && c.prior != c.second && c.first != c.second
    && q.now == s.now && c.row in q.rows && q.rows[c.row] == s.r
    && s.r.tenant in q.tenants && q.tenants[s.r.tenant]
    && Lookup(q.tasks, c.prior) == s.prior && Lookup(q.tasks, c.first) == s.first && Lookup(q.tasks, c.second) == s.second
    && c.issue in q.counts && q.counts[c.issue] == s.seen
  }

  /** The row under its new issue. */
  function Anew(state: State, attempts: nat, at: Time, leasedAt: Option<Time>, issue: Id, tenant: Id, expires: Time): Row {
    Row(state, attempts, at, leasedAt, Some(issue), issue, tenant, false, false, expires)
  }

  lemma Unroll(q: Queue, a: Step, rest: seq<Step>)
    ensures Run(q, [a] + rest) == Run(Apply(q, a), rest)
    ensures FairRun(q, [a] + rest) <==> Fair(q, a) && FairRun(Apply(q, a), rest)
  {
    hide Apply, Fair;
    assert ([a] + rest)[1..] == rest;
  }

  lemma UnrollTwo(q: Queue, a: Step, b: Step)
    ensures Run(q, [a, b]) == Apply(Apply(q, a), b)
    ensures FairRun(q, [a, b]) <==> Fair(q, a) && Fair(Apply(q, a), b)
  {
    hide Apply, Fair;
    assert [a, b] == [a] + [b] && [b] == [b] + [];
    Unroll(q, a, [b]);
    Unroll(Apply(q, a), b, []);
  }

  lemma UnrollThree(q: Queue, a: Step, b: Step, c: Step)
    ensures Run(q, [a, b, c]) == Apply(Apply(Apply(q, a), b), c)
    ensures FairRun(q, [a, b, c]) <==> Fair(q, a) && Fair(Apply(q, a), b) && Fair(Apply(Apply(q, a), b), c)
  {
    hide Apply, Fair;
    assert [a, b, c] == [a] + [b, c];
    Unroll(q, a, [b, c]);
    UnrollTwo(Apply(q, a), b, c);
  }

  lemma ReissueAndLease(q: Queue, c: Cast, expires: Time)
    requires MayReissue(q, c.row, c.issue) && q.now < expires
    requires c.prior in q.tasks && c.first !in q.tasks && c.second !in q.tasks && c.first != c.second
    ensures var tenant := q.rows[c.row].tenant;
            Shows(Apply(Apply(q, Step.Reissue(c.row, c.issue, expires)), Lease(c.row, c.first)), c,
                  Scene(q.now, Anew(Leased, 1, q.now, Some(q.now), c.issue, tenant, expires), Some(q.tasks[c.prior]),
                        Some(Task(c.row, 1, c.issue, Held)), None, Count(0, 0)))
  {
  }

  /** Whatever it was doing, the surviving worker can be on the point of a retryable failure. */
  lemma OldComesToFail(q: Queue, c: Cast, s: Scene)
    requires Shows(q, c, s) && s.prior.Some? && s.prior.value.row == c.row && MayRetry(q.maxAttempts, s.prior.value)
    requires s.r.state.Leased? && Eligible(q, s.r)
    ensures var steps := [Check(c.prior), FailRefused(c.prior, false, Some(UNAVAILABLE)), Throw(c.prior, UNAVAILABLE)];
            && FairRun(q, steps) && Run(q, steps).maxAttempts == q.maxAttempts
            && exists f: Failure :: f.retryable && Shows(Run(q, steps), c, s.(prior := Some(s.prior.value.(phase := Failing(f)))))
  {
    hide Classify, NoneRetries;
    UnavailableIsRetryable();
    var a, b, d := Check(c.prior), FailRefused(c.prior, false, Some(UNAVAILABLE)), Throw(c.prior, UNAVAILABLE);
    UnrollThree(q, a, b, d);
    var q3 := Apply(Apply(Apply(q, a), b), d);
    assert q3.tasks[c.prior].phase.Failing?;
    assert Shows(q3, c, s.(prior := Some(s.prior.value.(phase := Failing(q3.tasks[c.prior].phase.failure)))));
  }

  lemma FirstIsAccepted(q: Queue, c: Cast, s: Scene)
    requires Shows(q, c, s) && s.first == Some(Task(c.row, 1, c.issue, Held))
    requires s.r.state.Leased? && Eligible(q, s.r)
    ensures var steps := [Check(c.first), Send(c.first, true)];
            && FairRun(q, steps) && Run(q, steps).maxAttempts == q.maxAttempts
            && Shows(Run(q, steps), c, s.(first := Some(Task(c.row, 1, c.issue, Sent(true))),
                                          seen := Count(s.seen.sends + 1, s.seen.accepted + 1)))
  {
    UnrollTwo(q, Check(c.first), Send(c.first, true));
  }

  /** The prior worker's failure hits the new lease, and the row goes back to pending. */
  lemma OldFailsTheNewLease(q: Queue, c: Cast, s: Scene)
    requires Shows(q, c, s) && s.prior.Some? && s.prior.value.row == c.row && s.prior.value.attempts < q.maxAttempts
    requires s.prior.value.phase.Failing? && s.prior.value.phase.failure.retryable && s.r.state.Leased?
    ensures var steps := [Fail(c.prior), Tick(300)];
            && FairRun(q, steps)
            && Shows(Run(q, steps), c, s.(now := s.now + 300, prior := None,
                 r := s.r.(state := Pending, leasedAt := None, availableAt := s.now + Delay(s.prior.value.attempts))))
  {
    UnrollTwo(q, Fail(c.prior), Tick(300));
  }

  lemma SecondIsAccepted(q: Queue, c: Cast, s: Scene)
    requires Shows(q, c, s) && s.second.None? && s.r.envelope == Some(c.issue) && IsDue(q, s.r)
    ensures var steps := [Lease(c.row, c.second), Check(c.second), Send(c.second, true)];
            && FairRun(q, steps)
            && c.issue in Run(q, steps).counts && Run(q, steps).counts[c.issue].accepted == s.seen.accepted + 1
  {
    UnrollThree(q, Lease(c.row, c.second), Check(c.second), Send(c.second, true));
  }

  /** After a reissue under a worker that may retry, two mails of the new issue are accepted
      in some fair continuation. */
  lemma RetryingWorkerBreaksIt(q: Queue, row: Id, issue: Id, expires: Time, prior: Id) returns (steps: seq<Step>)
    requires MayReissue(q, row, issue) && q.now + 300 < expires
    requires prior in q.tasks && q.tasks[prior].row == row && MayRetry(q.maxAttempts, q.tasks[prior])
    ensures FairRun(Apply(q, Step.Reissue(row, issue, expires)), steps)
    ensures !AtMostOnce(Run(Apply(q, Step.Reissue(row, issue, expires)), steps))
  {
    hide Apply, Fair, FairRun, Run, MayRetry, Classify;
    var first := FreeTasks(q);
    var c := Cast(row, prior, first, first + 1, issue);
    var q0 := Apply(q, Step.Reissue(row, issue, expires));
    var tenant := q.rows[row].tenant;
    ReissueAndLease(q, c, expires);
    ReissueKeepsMax(q, row, issue, expires, first);
    var q1 := Apply(q0, Lease(row, first));
    var r := Anew(Leased, 1, q.now, Some(q.now), issue, tenant, expires);
    var s1 := Scene(q.now, r, Some(q.tasks[prior]), Some(Task(row, 1, issue, Held)), None, Count(0, 0));
    var drive := [Check(prior), FailRefused(prior, false, Some(UNAVAILABLE)), Throw(prior, UNAVAILABLE)];
    OldComesToFail(q1, c, s1);
    var f: Failure :| f.retryable && Shows(Run(q1, drive), c, s1.(prior := Some(q.tasks[prior].(phase := Failing(f)))));
    var s2 := s1.(prior := Some(q.tasks[prior].(phase := Failing(f))));
    var q2 := Run(q1, drive);
    var send := [Check(first), Send(first, true)];
    FirstIsAccepted(q2, c, s2);
    var s3 := s2.(first := Some(Task(row, 1, issue, Sent(true))), seen := Count(1, 1));
    var q3 := Run(q2, send);
    var fail := [Fail(prior), Tick(300)];
    MayRetryMeansAttemptsLeft(q.maxAttempts, q.tasks[prior]);
    OldFailsTheNewLease(q3, c, s3);
    var q4 := Run(q3, fail);
    var again := [Lease(row, first + 1), Check(first + 1), Send(first + 1, true)];
    SecondIsAccepted(q4, c, s3.(now := s3.now + 300, prior := None,
                 r := s3.r.(state := Pending, leasedAt := None, availableAt := s3.now + Delay(q.tasks[prior].attempts))));
    steps := [Lease(row, first)] + (drive + (send + (fail + again)));
    Unroll(q0, Lease(row, first), drive + (send + (fail + again)));
    LeaseIsFair(q0, row, first);
    Chain(q1, drive, send + (fail + again));
    Chain(q2, send, fail + again);
    Chain(q3, fail, again);
    assert Run(q0, steps).counts[issue].accepted == 2;
  }

  lemma FreeTasks(q: Queue) returns (t: Id)
    ensures forall x <- q.tasks :: x < t
  {
    t := if q.tasks == map[] then 0 else MaxOf(q.tasks.Keys) + 1;
  }

  ghost function MaxOf(s: set<Id>): (m: Id)
    requires s != {}
    ensures forall x <- s :: x <= m
  {
    var x :| x in s;
    if s == {x} then x
    else
      var rest := MaxOf(s - {x});
      assert forall y <- s :: y == x || y in s - {x};
      if rest < x then x else rest
  }

  lemma ReissueKeepsMax(q: Queue, row: Id, issue: Id, expires: Time, first: Id)
    ensures Apply(Apply(q, Step.Reissue(row, issue, expires)), Lease(row, first)).maxAttempts == q.maxAttempts
  {
  }

  lemma MayRetryMeansAttemptsLeft(maxAttempts: nat, t: Task)
    requires MayRetry(maxAttempts, t)
    ensures t.attempts < maxAttempts
  {
  }

  lemma LeaseIsFair(q: Queue, row: Id, task: Id)
    ensures Fair(q, Lease(row, task))
  {
  }

  lemma Chain(q: Queue, a: seq<Step>, b: seq<Step>)
    ensures Run(q, a + b) == Run(Run(q, a), b)
    ensures FairRun(q, a + b) <==> FairRun(q, a) && FairRun(Run(q, a), b)
  {
    hide Run, FairRun;
    RunAppends(q, a, b);
    FairRunAppends(q, a, b);
  }

  /** A reissue keeps every issue at one acceptance at most, in every fair continuation, if
      and only if no worker of the row may still retry. */
  lemma ReissueIsSafeIff(q: Queue, row: Id, issue: Id, expires: Time)
    requires Inv(q) && MayReissue(q, row, issue) && q.now + 300 < expires
    ensures (forall steps: seq<Step> :: FairRun(Apply(q, Step.Reissue(row, issue, expires)), steps) ==>
               AtMostOnce(Run(Apply(q, Step.Reissue(row, issue, expires)), steps)))
            <==> NoneRetries(q, row)
  {
    hide Inv, Run, FairRun, Apply, AtMostOnce, MayRetry, MayReissue;
    var q1 := Apply(q, Step.Reissue(row, issue, expires));
    if NoneRetries(q, row) {
      StepKeepsInv(q, Step.Reissue(row, issue, expires));
      forall steps: seq<Step> | FairRun(q1, steps) ensures AtMostOnce(Run(q1, steps)) {
        RunKeepsInv(q1, steps);
        InvIsAtMostOnce(Run(q1, steps));
      }
    } else {
      var prior :| prior in q.tasks && q.tasks[prior].row == row && MayRetry(q.maxAttempts, q.tasks[prior]);
      var steps := RetryingWorkerBreaksIt(q, row, issue, expires, prior);
      assert FairRun(q1, steps) && !AtMostOnce(Run(q1, steps));
    }
  }

  // ---------------------------------------------------------------------------
  // What the tables show
  // ---------------------------------------------------------------------------

  lemma LeasedAndChecked(q: Queue, row: Id, task: Id)
    requires row in q.rows && IsDue(q, q.rows[row]) && task !in q.tasks
    ensures var q', r := Apply(Apply(q, Lease(row, task)), Check(task)), q.rows[row];
            && q'.now == q.now && q'.maxAttempts == q.maxAttempts && row in q'.rows
            && q'.rows[row] == r.(state := Leased, leasedAt := Some(q.now), attempts := r.attempts + 1)
            && task in q'.tasks && q'.tasks[task] == Task(row, r.attempts + 1, r.envelope.value, Checked)
  {
  }

  lemma SweptWhenStale(q: Queue, row: Id)
    requires row in q.rows && q.rows[row].state.Leased? && q.rows[row].leasedAt == Some(q.now)
    ensures var q' := Apply(Apply(q, Tick(STALE_AFTER + 1)), Swept(Stale, {row}));
            q'.tasks == q.tasks && q'.maxAttempts == q.maxAttempts && row in q'.rows && q'.rows[row].state.Failed?
  {
  }

  /** Swept or not, a leased row may have a worker about: after a stale sweep nothing of the
      row is leased, and its worker may still retry. */
  lemma StaleSweepLeavesARetrier(q: Queue, row: Id, task: Id)
    requires row in q.rows && IsDue(q, q.rows[row]) && task !in q.tasks && q.rows[row].attempts + 1 < q.maxAttempts
    ensures var q' := Run(q, [Lease(row, task), Check(task)] + [Tick(STALE_AFTER + 1), Swept(Stale, {row})]);
            row in q'.rows && q'.rows[row].state.Failed? && !NoneRetries(q', row)
  {
    hide Apply, Run, IsDue;
    var a, b := [Lease(row, task), Check(task)], [Tick(STALE_AFTER + 1), Swept(Stale, {row})];
    Chain(q, a, b);
    UnrollTwo(q, a[0], a[1]);
    LeasedAndChecked(q, row, task);
    var q2 := Run(q, a);
    UnrollTwo(q2, b[0], b[1]);
    SweptWhenStale(q2, row);
    assert task in Run(q2, b).tasks && Run(q2, b).tasks[task].row == row;
  }

  // ---------------------------------------------------------------------------
  // Delivered means accepted
  // ---------------------------------------------------------------------------

  ghost predicate CandidRow(q: Queue, r: Row) {
    && r.issue in q.counts && (r.envelope.Some? ==> r.envelope.value == r.issue)
    && (r.state.Delivered? ==> q.counts[r.issue].accepted >= 1)
  }

  ghost predicate CandidTask(q: Queue, t: Task) {
    && t.row in q.rows && t.envelope in q.counts
    && (WasAccepted(t.phase) ==> q.counts[t.envelope].accepted >= 1)
    && (t.envelope != q.rows[t.row].issue ==> !MayComplete(t))
  }

  /** A delivered row was accepted, and a worker of an earlier issue cannot deliver a row. */
  ghost predicate Candid(q: Queue) {
    (forall r <- q.rows :: CandidRow(q, q.rows[r])) && (forall t <- q.tasks :: CandidTask(q, q.tasks[t]))
  }

  ghost predicate DeliveredWereAccepted(q: Queue) {
    forall r <- q.rows :: q.rows[r].state.Delivered? ==>
      q.rows[r].issue in q.counts && q.counts[q.rows[r].issue].accepted >= 1
  }

  predicate Considerate(q: Queue, step: Step) {
    step.Reissue? ==> NoneCompletes(q, step.row)
  }

  predicate ConsiderateRun(q: Queue, steps: seq<Step>)
    decreases |steps|
  {
    steps == [] || (Considerate(q, steps[0]) && ConsiderateRun(Apply(q, steps[0]), steps[1..]))
  }

  lemma CountsGrow(q: Queue, step: Step, e: Id)
    requires e in q.counts
    ensures e in Apply(q, step).counts && q.counts[e].accepted <= Apply(q, step).counts[e].accepted
  {
    hide Classify, Eligible, StillEligible, SweepRows, FailRow, CompleteRow, Submitted;
  }

  /** A row keeps its issue, and its envelope until it is dropped, unless it is issued anew. */
  lemma EnvelopeStays(q: Queue, step: Step, r: Id)
    requires r in q.rows
    ensures r in Apply(q, step).rows
    ensures var x, x' := q.rows[r], Apply(q, step).rows[r];
            || (x'.issue == x.issue && (x'.envelope == x.envelope || x'.envelope.None?))
            || (x'.envelope == Some(x'.issue) && x'.issue in Apply(q, step).counts)
  {
    hide Apply, IsDue;
    if Renews(q, step, r) { RenewedIsPending(q, step, r); } else { RowMoves(q, step, r); }
  }

  lemma RowStaysCandid(q: Queue, step: Step, r: Id)
    requires r in q.rows && CandidRow(q, q.rows[r])
    requires step.Complete? && step.task in q.tasks ==> CandidTask(q, q.tasks[step.task])
    ensures r in Apply(q, step).rows && CandidRow(Apply(q, step), Apply(q, step).rows[r])
  {
    hide Apply, Eligible;
    var q' := Apply(q, step);
    CountsGrow(q, step, q.rows[r].issue);
    EnvelopeStays(q, step, r);
    if q'.rows[r].state.Delivered? {
      DeliveredKeepsIssue(q, step, r);
      if !q.rows[r].state.Delivered? { DeliveredWasAcceptedAndEligible(q, step, r); }
    }
  }

  lemma DeliveredKeepsIssue(q: Queue, step: Step, r: Id)
    requires r in q.rows && r in Apply(q, step).rows && Apply(q, step).rows[r].state.Delivered?
    ensures Apply(q, step).rows[r].issue == q.rows[r].issue
  {
    hide Classify, Eligible, StillEligible, SweepRows, FailRow, CompleteRow, Submitted;
  }

  /** A worker keeps its row and envelope; it gets to an acceptance only by a submission,
      and cannot regain the power to complete. */
  lemma TaskMoves(q: Queue, step: Step, t: Id)
    requires t in q.tasks && t in Apply(q, step).tasks && q.tasks[t].envelope in q.counts
    ensures var x, x' := q.tasks[t], Apply(q, step).tasks[t];
            && x'.row == x.row && x'.envelope == x.envelope && (MayComplete(x') ==> MayComplete(x))
            && (!WasAccepted(x'.phase) || WasAccepted(x.phase)
                || (x.envelope in Apply(q, step).counts && Apply(q, step).counts[x.envelope].accepted >= 1))
  {
    hide Classify, Eligible, StillEligible, SweepRows, FailRow, CompleteRow, IsDue, MayReissue;
  }

  lemma IssueMoves(q: Queue, step: Step, r: Id)
    requires r in q.rows
    ensures r in Apply(q, step).rows
    ensures Apply(q, step).rows[r].issue == q.rows[r].issue || (step.Reissue? && step.row == r && Apply(q, step).tasks == q.tasks)
  {
    hide Classify, Eligible, StillEligible, SweepRows, FailRow, CompleteRow, IsDue, Submitted;
  }

  lemma TaskStaysCandid(q: Queue, step: Step, t: Id)
    requires t in q.tasks && t in Apply(q, step).tasks && CandidTask(q, q.tasks[t]) && Considerate(q, step)
    ensures CandidTask(Apply(q, step), Apply(q, step).tasks[t])
  {
    hide Apply, MayComplete, WasAccepted;
    TaskMoves(q, step, t);
    IssueMoves(q, step, q.tasks[t].row);
    CountsGrow(q, step, q.tasks[t].envelope);
  }

  lemma NewcomersAreCandid(q: Queue, step: Step)
    requires step.Issue? || step.Lease?
    requires step.Lease? && step.row in q.rows ==> CandidRow(q, q.rows[step.row])
    ensures forall r <- Apply(q, step).rows :: r !in q.rows ==> CandidRow(Apply(q, step), Apply(q, step).rows[r])
    ensures forall t <- Apply(q, step).tasks :: t !in q.tasks ==> CandidTask(Apply(q, step), Apply(q, step).tasks[t])
  {
    hide Eligible;
  }

  lemma NoOthersCome(q: Queue, step: Step)
    requires !step.Issue? && !step.Lease?
    ensures Apply(q, step).rows.Keys <= q.rows.Keys && Apply(q, step).tasks.Keys <= q.tasks.Keys
  {
    hide Classify, Eligible, StillEligible, SweepRows, FailRow, CompleteRow, Submitted;
  }

  lemma StepKeepsCandid(q: Queue, step: Step)
    requires Candid(q) && Considerate(q, step)
    ensures Candid(Apply(q, step))
  {
    hide Apply, CandidRow, CandidTask, Considerate;
    var q' := Apply(q, step);
    if step.Issue? || step.Lease? {
      NewcomersAreCandid(q, step);
    } else {
      NoOthersCome(q, step);
    }
    forall r | r in q'.rows ensures CandidRow(q', q'.rows[r]) {
      if r in q.rows { RowStaysCandid(q, step, r); }
    }
    forall t | t in q'.tasks ensures CandidTask(q', q'.tasks[t]) {
      if t in q.tasks { TaskStaysCandid(q, step, t); }
    }
  }

  lemma {:induction false} RunKeepsCandid(q: Queue, steps: seq<Step>)
    requires Candid(q) && ConsiderateRun(q, steps)
    ensures Candid(Run(q, steps)) && DeliveredWereAccepted(Run(q, steps))
    decreases |steps|
  {
    hide Apply, Considerate;
    if steps != [] {
      hide Candid;
      StepKeepsCandid(q, steps[0]);
      RunKeepsCandid(Apply(q, steps[0]), steps[1..]);
    }
  }

  lemma {:induction false} NoReissueIsConsiderate(q: Queue, steps: seq<Step>)
    requires forall s <- steps :: !s.Reissue?
    ensures ConsiderateRun(q, steps)
    decreases |steps|
  {
    hide Apply;
    if steps != [] {
      assert steps[0] in steps;
      assert forall s <- steps[1..] :: s in steps;
      NoReissueIsConsiderate(Apply(q, steps[0]), steps[1..]);
    }
  }

  lemma CompletingWorkerBreaksIt(q: Queue, row: Id, issue: Id, expires: Time, prior: Id) returns (steps: seq<Step>)
    requires MayReissue(q, row, issue) && q.now < expires
    requires prior in q.tasks && q.tasks[prior].row == row && MayComplete(q.tasks[prior]) && q.tasks[prior].envelope in q.counts
    ensures ConsiderateRun(Apply(q, Step.Reissue(row, issue, expires)), steps)
    ensures !DeliveredWereAccepted(Run(Apply(q, Step.Reissue(row, issue, expires)), steps))
  {
    hide Apply, Run, MayComplete;
    var first := FreeTasks(q);
    var c := Cast(row, prior, first, first + 1, issue);
    var q0 := Apply(q, Step.Reissue(row, issue, expires));
    var q1 := Apply(q0, Lease(row, first));
    var tenant := q.rows[row].tenant;
    ReissueAndLease(q, c, expires);
    var s1 := Scene(q.now, Anew(Leased, 1, q.now, Some(q.now), issue, tenant, expires), Some(q.tasks[prior]),
                    Some(Task(row, 1, issue, Held)), None, Count(0, 0));
    var rest := [Check(prior), Send(prior, true), Complete(prior, false)];
    PriorDelivers(q1, c, s1);
    steps := [Lease(row, first)] + rest;
    Unroll(q0, Lease(row, first), rest);
    NoReissueIsConsiderate(q0, steps);
  }

  lemma PriorIsAccepted(q: Queue, c: Cast, s: Scene)
    requires Shows(q, c, s) && s.prior.Some? && s.prior.value.row == c.row && MayComplete(s.prior.value)
    requires s.prior.value.envelope != c.issue && s.r.state.Leased? && Eligible(q, s.r)
    ensures Shows(Apply(Apply(q, Check(c.prior)), Send(c.prior, true)), c,
                  s.(prior := Some(s.prior.value.(phase := Sent(true)))))
  {
  }

  /** The prior worker's completion marks the row under its new issue. */
  lemma PriorDelivers(q: Queue, c: Cast, s: Scene)
    requires Shows(q, c, s) && s.prior.Some? && s.prior.value.row == c.row && MayComplete(s.prior.value)
    requires s.prior.value.envelope != c.issue && s.r.issue == c.issue && s.seen.accepted == 0
    requires s.r.state.Leased? && Eligible(q, s.r)
    ensures !DeliveredWereAccepted(Run(q, [Check(c.prior), Send(c.prior, true), Complete(c.prior, false)]))
  {
    hide Run, MayComplete, Submitted;
    UnrollThree(q, Check(c.prior), Send(c.prior, true), Complete(c.prior, false));
    PriorIsAccepted(q, c, s);
    var q2 := Apply(Apply(q, Check(c.prior)), Send(c.prior, true));
    assert Eligible(q2, s.r);
    Marked(q2, c, s.(prior := Some(s.prior.value.(phase := Sent(true)))));
  }

  lemma Marked(q: Queue, c: Cast, s: Scene)
    requires Shows(q, c, s) && s.prior.Some? && s.prior.value.row == c.row && s.prior.value.phase == Sent(true)
    requires s.r.issue == c.issue && s.seen.accepted == 0 && s.r.state.Leased? && Eligible(q, s.r)
    ensures !DeliveredWereAccepted(Apply(q, Complete(c.prior, false)))
  {
    var q3 := Apply(q, Complete(c.prior, false));
    assert c.row in q3.rows && q3.rows[c.row].state.Delivered?;
    assert q3.rows[c.row].issue == c.issue && q3.counts[c.issue].accepted == 0;
  }

  /** A reissue leaves every delivered row accepted, in every considerate continuation, if
      and only if no worker of the row may still complete. */
  lemma ReissueIsCandidIff(q: Queue, row: Id, issue: Id, expires: Time)
    requires Candid(q) && MayReissue(q, row, issue) && q.now < expires
    ensures (forall steps: seq<Step> :: ConsiderateRun(Apply(q, Step.Reissue(row, issue, expires)), steps) ==>
               DeliveredWereAccepted(Run(Apply(q, Step.Reissue(row, issue, expires)), steps)))
            <==> NoneCompletes(q, row)
  {
    hide Candid, Run, ConsiderateRun, Apply, DeliveredWereAccepted, MayComplete, MayReissue;
    var q1 := Apply(q, Step.Reissue(row, issue, expires));
    if NoneCompletes(q, row) {
      StepKeepsCandid(q, Step.Reissue(row, issue, expires));
      forall steps: seq<Step> | ConsiderateRun(q1, steps) ensures DeliveredWereAccepted(Run(q1, steps)) {
        RunKeepsCandid(q1, steps);
      }
    } else {
      var prior :| prior in q.tasks && q.tasks[prior].row == row && MayComplete(q.tasks[prior]);
      TaskIsCandid(q, prior);
      var steps := CompletingWorkerBreaksIt(q, row, issue, expires, prior);
      assert ConsiderateRun(q1, steps) && !DeliveredWereAccepted(Run(q1, steps));
    }
  }

  lemma TaskIsCandid(q: Queue, t: Id)
    requires Candid(q) && t in q.tasks
    ensures q.tasks[t].envelope in q.counts
  {
    assert CandidTask(q, q.tasks[t]);
  }
}
