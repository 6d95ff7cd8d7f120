/** The leased delivery queue for owner invitations: many workers, crashes, stale leases,
    bounded retries, and a mail provider that cannot recognise a repeated submission. */
module Delivery {
  import opened Basics

  // ---------------------------------------------------------------------------
  // Classifying what a submission threw
  // ---------------------------------------------------------------------------

  /** What is read of a thrown value: its name, and the response status if there is one. */
  datatype Thrown = Thrown(name: string, httpStatus: Option<int>)

  datatype Failure = Failure(code: string, retryable: bool)

  function Normal(c: char): (u: char)
    ensures 'A' <= u <= 'Z' || '0' <= u <= '9' || u == '_'
  {
    if 'a' <= c <= 'z' then c - 'a' + 'A'
    else if 'A' <= c <= 'Z' || '0' <= c <= '9' then c
    else '_'
  }

  function Normalized(name: string): (n: string)
    ensures |n| == |name| && forall i :: 0 <= i < |n| ==> n[i] == Normal(name[i])
  {
    seq(|name|, i requires 0 <= i < |name| => Normal(name[i]))
  }

  const KNOWN_PRE_ACCEPTANCE: set<string> := {
    "THROTTLINGEXCEPTION", "TOOMANYREQUESTSEXCEPTION", "SERVICEUNAVAILABLEEXCEPTION"
  }

  const AMBIGUOUS_TRANSPORT: set<string> := {
    "TIMEOUTERROR", "REQUESTTIMEOUT", "ECONNRESET", "ECONNREFUSED", "NETWORKINGERROR"
  }

  function Classify(e: Thrown): (f: Failure)
    ensures |f.code| <= 100
    ensures f.retryable ==> HasPrefix(f.code, "SES_")
  {
    var normalized := Normalized(e.name);
    if normalized in AMBIGUOUS_TRANSPORT then Failure("DELIVERY_OUTCOME_UNKNOWN", false)
    else
      var code := "SES_" + normalized;
      Failure(if |code| <= 100 then code else code[..100],
              normalized in KNOWN_PRE_ACCEPTANCE || e.httpStatus == Some(429) || e.httpStatus == Some(503))
  }

  // ---------------------------------------------------------------------------
  // State
  // ---------------------------------------------------------------------------

  datatype State = Pending | Leased | Delivered | Failed

  /** The attempt row of one invitation with the invitation it delivers. issue identifies
      the link that was issued last; the envelope holds its secret until the row is finished. */
  datatype Row = Row(state: State, attempts: nat, availableAt: Time, leasedAt: Option<Time>, envelope: Option<Id>,
                     issue: Id, tenant: Id, used: bool, revoked: bool, expires: Time)

  /** Where a worker is with one leased row. Everything up to Sent runs inside the block
      whose errors are classified; Lost is a commit whose reply never arrived. */
  datatype Phase = Held | Checked | Refused | Sent(accepted: bool) | Lost | Failing(failure: Failure)

  datatype Task = Task(row: Id, attempts: nat, envelope: Id, phase: Phase)

  /** What the provider saw of one issue. */
  datatype Count = Count(sends: nat, accepted: nat)

  /** Committed tables, workers in flight, and the provider's view of every issue, which no
      code reads. */
  datatype Queue = Queue(now: Time, maxAttempts: nat, tenants: map<Id, bool>, rows: map<Id, Row>, tasks: map<Id, Task>,
                         counts: map<Id, Count>)

  const STALE_AFTER := 900

  predicate Eligible(q: Queue, r: Row) {
    !r.used && !r.revoked && r.expires > q.now && r.tenant in q.tenants && q.tenants[r.tenant]
  }

  predicate IsLegacy(r: Row) {
    r.state.Pending? && r.envelope.None?
  }

  predicate IsStale(q: Queue, r: Row) {
    r.state.Leased? && r.leasedAt.Some? && r.leasedAt.value < q.now - STALE_AFTER
  }

  predicate IsIneligible(q: Queue, r: Row) {
    r.state.Pending? && r.envelope.Some? && (r.used || r.revoked || r.expires <= q.now)
  }

  predicate IsDue(q: Queue, r: Row) {
    r.state.Pending? && r.availableAt <= q.now && r.envelope.Some? && Eligible(q, r)
  }

  function Dropped(r: Row): Row {
    r.(state := Failed, envelope := None)
  }

  function Delay(attempts: nat): nat {
    if attempts == 1 then 60 else 300
  }

  // ---------------------------------------------------------------------------
  // Transactions
  // ---------------------------------------------------------------------------

  datatype Sweep = Legacy | Stale | Ineligible

  predicate Sweeps(q: Queue, kind: Sweep, r: Row) {
    match kind
    case Legacy => IsLegacy(r)
    case Stale => IsStale(q, r)
    case Ineligible => IsIneligible(q, r)
  }

  /** Only rows change, and of those neither what they are for nor their attempts. */
  predicate SameBeyondState(q: Queue, q': Queue) {
    && q' == q.(rows := q'.rows) && q'.rows.Keys == q.rows.Keys
    && forall r <- q.rows :: q'.rows[r].issue == q.rows[r].issue && q'.rows[r].attempts == q.rows[r].attempts
  }

  /** Fails the chosen candidates; rows locked elsewhere are skipped, so any subset may be chosen. */
  function SweepRows(q: Queue, kind: Sweep, chosen: set<Id>): (q': Queue)
    ensures SameBeyondState(q, q')
  {
    q.(rows := map r | r in q.rows ::
      if r in chosen && Sweeps(q, kind, q.rows[r]) then Dropped(q.rows[r]) else q.rows[r])
  }

  function LeaseRow(q: Queue, row: Id, task: Id): Queue
    requires row in q.rows && IsDue(q, q.rows[row])
  {
    var r := q.rows[row];
    q.(rows := q.rows[row := r.(state := Leased, leasedAt := Some(q.now), attempts := r.attempts + 1)],
       tasks := q.tasks[task := Task(row, r.attempts + 1, r.envelope.value, Held)])
  }

  function StillEligible(q: Queue, row: Id): bool {
    row in q.rows && q.rows[row].state.Leased? && Eligible(q, q.rows[row])
  }

  function CompleteRow(q: Queue, row: Id): (q': Queue)
    ensures SameBeyondState(q, q')
  {
    if row !in q.rows || !q.rows[row].state.Leased? then q
    else if Eligible(q, q.rows[row]) then q.(rows := q.rows[row := q.rows[row].(state := Delivered, envelope := None)])
    else q.(rows := q.rows[row := Dropped(q.rows[row])])
  }

  /** The worker's own copy of the attempt count decides whether it retries. */
  function FailRow(q: Queue, t: Task, retryable: bool): (q': Queue)
    ensures SameBeyondState(q, q')
  {
    if t.row !in q.rows || !q.rows[t.row].state.Leased? then q
    else if retryable && t.attempts < q.maxAttempts then
      q.(rows := q.rows[t.row :=
        q.rows[t.row].(state := Pending, leasedAt := None, availableAt := q.now + Delay(t.attempts))])
    else q.(rows := q.rows[t.row := Dropped(q.rows[t.row])])
  }

  /** The provider sees one more mail of the issue whose envelope the worker opened. */
  function Submitted(q: Queue, envelope: Id, accepted: bool): (q': Queue)
    ensures q' == q.(counts := q'.counts) && q'.counts.Keys == q.counts.Keys
    ensures forall e <- q.counts :: q.counts[e].accepted <= q'.counts[e].accepted
  {
    if envelope !in q.counts then q
    else
      var c := q.counts[envelope];
      q.(counts := q.counts[envelope := Count(c.sends + 1, c.accepted + if accepted then 1 else 0)])
  }

  function Move(q: Queue, task: Id, phase: Phase): Queue
    requires task in q.tasks
  {
    q.(tasks := q.tasks[task := q.tasks[task].(phase := phase)])
  }

  /** A row as it is issued, with a link never issued before. */
  function Issued(q: Queue, row: Id, tenant: Id, envelope: Id, expires: Time): Queue {
    q.(rows := q.rows[row := Row(Pending, 0, q.now, None, Some(envelope), envelope, tenant, false, false, expires)],
       counts := q.counts[envelope := Count(0, 0)])
  }

  // ---------------------------------------------------------------------------
  // Steps
  // ---------------------------------------------------------------------------

  datatype Step =
    | Tick(elapsed: nat)
    | Issue(row: Id, tenant: Id, envelope: Id, expires: Time)
    | Reissue(row: Id, envelope: Id, expires: Time)
    | Use(row: Id)
    | Revoke(row: Id)
    | SetTenant(tenant: Id, active: bool)
    | Swept(kind: Sweep, chosen: set<Id>)
    | Lease(row: Id, task: Id)
    | Check(task: Id)
    | FailRefused(task: Id, commits: bool, throws: Option<Thrown>)
    | Send(task: Id, accepts: bool)
    | Complete(task: Id, replyLost: bool)
    | Throw(task: Id, error: Thrown)
    | Fail(task: Id)
    | Crash(task: Id)

  predicate MayReissue(q: Queue, row: Id, envelope: Id) {
    && row in q.rows && !q.rows[row].used
    && q.rows[row].tenant in q.tenants && q.tenants[q.rows[row].tenant]
    && envelope !in q.counts
  }

  function Apply(q: Queue, step: Step): Queue {
    match step
    case Tick(d) => q.(now := q.now + d)
    case Issue(row, tenant, envelope, expires) =>
      if row in q.rows || envelope in q.counts || tenant !in q.tenants then q
      else Issued(q, row, tenant, envelope, expires)
    case Reissue(row, envelope, expires) =>
      if !MayReissue(q, row, envelope) then q else Issued(q, row, q.rows[row].tenant, envelope, expires)
    case Use(row) => if row !in q.rows then q else q.(rows := q.rows[row := q.rows[row].(used := true)])
    case Revoke(row) => if row !in q.rows then q else q.(rows := q.rows[row := q.rows[row].(revoked := true)])
    case SetTenant(tenant, active) => q.(tenants := q.tenants[tenant := active])
    case Swept(kind, chosen) => SweepRows(q, kind, chosen)
    case Lease(row, task) =>
      if row !in q.rows || !IsDue(q, q.rows[row]) || task in q.tasks then q else LeaseRow(q, row, task)
    case Check(task) =>
      if task !in q.tasks || !q.tasks[task].phase.Held? then q
      else Move(q, task, if StillEligible(q, q.tasks[task].row) then Checked else Refused)
    case FailRefused(task, commits, throws) =>
      if task !in q.tasks || !q.tasks[task].phase.Refused? then q
      else
        var q1 := if commits then FailRow(q, q.tasks[task], false) else q;
        (match throws
         case None => q1.(tasks := q1.tasks - {task})
         case Some(e) => Move(q1, task, Failing(Classify(e))))
    case Send(task, accepts) =>
      if task !in q.tasks || !q.tasks[task].phase.Checked? then q
      else Move(Submitted(q, q.tasks[task].envelope, accepts), task, Sent(accepts))
    case Complete(task, replyLost) =>
      if task !in q.tasks || q.tasks[task].phase != Sent(true) then q
      else
        var q1 := CompleteRow(q, q.tasks[task].row);
        if replyLost then Move(q1, task, Lost) else q1.(tasks := q1.tasks - {task})
    case Throw(task, e) =>
      if task !in q.tasks || q.tasks[task].phase.Refused? || q.tasks[task].phase.Failing? then q
      else Move(q, task, Failing(Classify(e)))
    case Fail(task) =>
      if task !in q.tasks || !q.tasks[task].phase.Failing? then q
      else FailRow(q, q.tasks[task], q.tasks[task].phase.failure.retryable).(tasks := q.tasks - {task})
    case Crash(task) => q.(tasks := q.tasks - {task})
  }

  function Run(q: Queue, steps: seq<Step>): Queue
    decreases |steps|
  {
    if steps == [] then q else Run(Apply(q, steps[0]), steps[1..])
  }

  lemma {:induction false} RunAppends(q: Queue, a: seq<Step>, b: seq<Step>)
    ensures Run(q, a + b) == Run(Run(q, a), b)
    decreases |a|
  {
    hide Apply;
    if a == [] {
      assert a + b == b;
    } else {
      RunAppends(Apply(q, a[0]), a[1..], b);
      assert (a + b)[1..] == a[1..] + b;
    }
  }

  // ---------------------------------------------------------------------------
  // What is assumed of the environment
  // ---------------------------------------------------------------------------

  /** The submission in question reached the provider and was accepted. */
  predicate WasAccepted(p: Phase) {
    p == Sent(true) || p.Lost?
  }

  /** An error raised after acceptance is never of a retryable class. */
  predicate HonestErrors(q: Queue, step: Step) {
    step.Throw? && step.task in q.tasks && WasAccepted(q.tasks[step.task].phase) ==> !Classify(step.error).retryable
  }

  /** The worker can still put its row back to pending: it has attempts left, and nothing it
      did so far rules out an error of a retryable class. */
  predicate MayRetry(maxAttempts: nat, t: Task) {
    && t.attempts < maxAttempts
    && (t.phase.Held? || t.phase.Checked? || t.phase.Refused? || t.phase == Sent(false)
        || (t.phase.Failing? && t.phase.failure.retryable))
  }

  /** The worker can still mark its row delivered. */
  predicate MayComplete(t: Task) {
    t.phase.Held? || t.phase.Checked? || t.phase == Sent(true)
  }

  predicate NoneRetries(q: Queue, row: Id) {
    forall t <- q.tasks :: q.tasks[t].row == row ==> !MayRetry(q.maxAttempts, q.tasks[t])
  }

  predicate NoneCompletes(q: Queue, row: Id) {
    forall t <- q.tasks :: q.tasks[t].row == row ==> !MayComplete(q.tasks[t])
  }

  predicate Fair(q: Queue, step: Step) {
    HonestErrors(q, step) && (step.Reissue? ==> NoneRetries(q, step.row))
  }

  predicate FairRun(q: Queue, steps: seq<Step>)
    decreases |steps|
  {
    steps == [] || (Fair(q, steps[0]) && FairRun(Apply(q, steps[0]), steps[1..]))
  }

  lemma {:induction false} FairRunAppends(q: Queue, a: seq<Step>, b: seq<Step>)
    ensures FairRun(q, a + b) <==> FairRun(q, a) && FairRun(Run(q, a), b)
    decreases |a|
  {
    hide Apply, Fair;
    if a == [] {
      assert a + b == b;
    } else {
      FairRunAppends(Apply(q, a[0]), a[1..], b);
      assert (a + b)[1..] == a[1..] + b;
    }
  }

  // ---------------------------------------------------------------------------
  // The invariant
  // ---------------------------------------------------------------------------

  ghost predicate NobodyHolds(q: Queue, issue: Id) {
    forall t <- q.tasks :: q.tasks[t].envelope != issue
  }

  ghost predicate RowOk(q: Queue, row: Id)
    requires row in q.rows
  {
    var r := q.rows[row];
    && r.issue in q.counts && q.counts[r.issue].sends <= r.attempts <= q.maxAttempts
    && (r.envelope.Some? ==> r.envelope.value == r.issue)
    && (r.state.Pending? ==> r.attempts < q.maxAttempts && q.counts[r.issue].accepted == 0 && NobodyHolds(q, r.issue))
    && (r.state.Leased? ==> r.envelope.Some? && r.leasedAt.Some?)
    && (r.state.Failed? || r.state.Delivered? ==> r.envelope.None?)
  }

  ghost predicate CountOk(q: Queue, issue: Id)
    requires issue in q.counts
  {
    q.counts[issue].accepted <= 1 && q.counts[issue].sends <= q.maxAttempts
  }

  /** A worker of the row's last issue agrees with the row; one of an earlier issue can no
      longer retry. */
  ghost predicate TaskOk(q: Queue, t: Task) {
    && t.row in q.rows && t.envelope in q.counts && 1 <= t.attempts <= q.maxAttempts
    && (forall r <- q.rows :: q.rows[r].issue == t.envelope ==> r == t.row)
    && var c := q.counts[t.envelope];
    && (t.phase.Held? || t.phase.Checked? || t.phase.Refused? ==> c.sends < t.attempts && c.accepted == 0)
    && (t.phase == Sent(false) ==> c.accepted == 0)
    && (WasAccepted(t.phase) ==> c.accepted == 1)
    && (t.phase.Failing? && t.phase.failure.retryable ==> c.accepted == 0)
    && (if t.envelope == q.rows[t.row].issue then t.attempts == q.rows[t.row].attempts
        else !MayRetry(q.maxAttempts, t))
  }

  /** At most one worker holds an issue. */
  ghost predicate OneHolder(q: Queue) {
    forall a, b :: a in q.tasks && b in q.tasks && q.tasks[a].envelope == q.tasks[b].envelope ==> a == b
  }

  ghost predicate DistinctIssues(q: Queue) {
    forall r, s :: r in q.rows && s in q.rows && q.rows[r].issue == q.rows[s].issue ==> r == s
  }

  ghost predicate Inv(q: Queue) {
    && 1 <= q.maxAttempts
    && (forall r <- q.rows :: RowOk(q, r))
    && (forall e <- q.counts :: CountOk(q, e))
    && (forall t <- q.tasks :: TaskOk(q, q.tasks[t]))
    && OneHolder(q) && DistinctIssues(q)
  }

  // ---------------------------------------------------------------------------
  // Preservation, one row, one worker and one issue at a time
  // ---------------------------------------------------------------------------

  /** Nothing but this row, this worker and what was seen of its issue has changed. */
  ghost predicate Local(q: Queue, q': Queue, row: Id, task: Id, issue: Id) {
    && q'.maxAttempts == q.maxAttempts
    && q'.rows.Keys == q.rows.Keys && row in q.rows
    && (forall r <- q.rows :: r != row ==> q'.rows[r] == q.rows[r] && q.rows[r].issue != issue)
    && q'.rows[row].issue == q.rows[row].issue
    && (forall t :: t != task ==> (t in q'.tasks <==> t in q.tasks))
    && (forall t <- q.tasks :: t != task ==> q'.tasks[t] == q.tasks[t] && q.tasks[t].envelope != issue)
    && (task in q.tasks ==> q.tasks[task].envelope == issue)
    && (task in q'.tasks ==> q'.tasks[task].envelope == issue)
    && q'.counts.Keys == q.counts.Keys && issue in q.counts
    && (forall e <- q.counts :: e != issue ==> q'.counts[e] == q.counts[e])
    && (q'.rows[row].attempts == q.rows[row].attempts || issue == q.rows[row].issue)
  }

  lemma OtherRowKept(q: Queue, q': Queue, row: Id, task: Id, issue: Id, r: Id)
    requires Local(q, q', row, task, issue) && r in q.rows && r != row && RowOk(q, r)
    ensures RowOk(q', r)
  {
  }

  lemma OtherTaskKept(q: Queue, q': Queue, row: Id, task: Id, issue: Id, t: Id)
    requires Local(q, q', row, task, issue) && t in q.tasks && t != task && TaskOk(q, q.tasks[t])
    ensures t in q'.tasks && TaskOk(q', q'.tasks[t])
  {
    hide MayRetry;
  }

  lemma LocalKeepsInv(q: Queue, q': Queue, row: Id, task: Id, issue: Id)
    requires Inv(q) && Local(q, q', row, task, issue)
    requires RowOk(q', row) && CountOk(q', issue)
    requires task in q'.tasks ==> TaskOk(q', q'.tasks[task])
    ensures Inv(q')
  {
    hide RowOk, TaskOk;
    forall r | r in q'.rows ensures RowOk(q', r) {
      if r != row { OtherRowKept(q, q', row, task, issue, r); }
    }
    forall t | t in q'.tasks ensures TaskOk(q', q'.tasks[t]) {
      if t != task { OtherTaskKept(q, q', row, task, issue, t); }
    }
    forall e | e in q'.counts ensures CountOk(q', e) {
      if e != issue { assert CountOk(q, e); }
    }
  }

  lemma HolderFacts(q: Queue, task: Id)
    requires Inv(q) && task in q.tasks
    ensures TaskOk(q, q.tasks[task]) && RowOk(q, q.tasks[task].row) && CountOk(q, q.tasks[task].envelope)
    ensures q.tasks[task].envelope == q.rows[q.tasks[task].row].issue ==> !q.rows[q.tasks[task].row].state.Pending?
    ensures forall t <- q.tasks :: q.tasks[t].envelope == q.tasks[task].envelope ==> t == task
  {
  }

  lemma WorkerIsLocal(q: Queue, q': Queue, task: Id)
    requires Inv(q) && task in q.tasks && q'.maxAttempts == q.maxAttempts
    requires q'.rows.Keys == q.rows.Keys && q'.counts.Keys == q.counts.Keys
    requires var t := q.tasks[task];
             && (forall r <- q.rows :: r != t.row ==> q'.rows[r] == q.rows[r])
             && (forall e <- q.counts :: e != t.envelope ==> q'.counts[e] == q.counts[e])
             && t.row in q'.rows && q'.rows[t.row].issue == q.rows[t.row].issue
             && q'.rows[t.row].attempts == q.rows[t.row].attempts
             && (task in q'.tasks ==> q'.tasks[task].envelope == t.envelope)
    requires forall t :: t != task ==> (t in q'.tasks <==> t in q.tasks)
    requires forall t <- q.tasks :: t != task ==> q'.tasks[t] == q.tasks[t]
    ensures Local(q, q', q.tasks[task].row, task, q.tasks[task].envelope)
  {
    hide RowOk;
    HolderFacts(q, task);
  }

  lemma MovedTaskOk(q: Queue, t: Task, phase: Phase)
    requires TaskOk(q, t)
    requires (t.phase.Held? && (phase.Checked? || phase.Refused?))
             || (phase.Failing? && (phase.failure.retryable ==> !WasAccepted(t.phase)))
    requires phase.Failing? ==> !t.phase.Refused? && !t.phase.Failing?
    ensures TaskOk(q, t.(phase := phase))
  {
  }

  lemma MovingKeepsInv(q: Queue, task: Id, phase: Phase)
    requires Inv(q) && task in q.tasks && TaskOk(q, q.tasks[task].(phase := phase))
    ensures Inv(Move(q, task, phase))
  {
    hide Inv, Local, NobodyHolds, TaskOk, RowOk, CountOk;
    var q', t := Move(q, task, phase), q.tasks[task];
    HolderFacts(q, task);
    TaskPlace(q, task);
    WorkerIsLocal(q, q', task);
    SameHolders(q, q', task, q.rows[t.row].issue);
    MovedRowOk(q, task, phase);
    LocalKeepsInv(q, q', t.row, task, t.envelope);
  }

  lemma MovedRowOk(q: Queue, task: Id, phase: Phase)
    requires task in q.tasks && TaskOk(q, q.tasks[task].(phase := phase))
    requires q.tasks[task].row in q.rows && RowOk(q, q.tasks[task].row) && CountOk(q, q.tasks[task].envelope)
    ensures RowOk(Move(q, task, phase), q.tasks[task].row) && CountOk(Move(q, task, phase), q.tasks[task].envelope)
    ensures TaskOk(Move(q, task, phase), q.tasks[task].(phase := phase))
  {
    hide MayRetry;
  }

  lemma WorkerStepKeepsInv(q: Queue, step: Step, task: Id)
    requires Inv(q) && HonestErrors(q, step) && task in q.tasks
    requires (step.Check? || step.Throw?) && step.task == task
    ensures Inv(Apply(q, step))
  {
    hide Inv, Classify, StillEligible, TaskOk, RowOk, CountOk;
    HolderFacts(q, task);
    var q' := Apply(q, step);
    if q' != q {
      MovedTaskOk(q, q.tasks[task], q'.tasks[task].phase);
      MovingKeepsInv(q, task, q'.tasks[task].phase);
    }
  }

  lemma SendKeepsInv(q: Queue, step: Step, task: Id)
    requires Inv(q) && task in q.tasks && step.Send? && step.task == task
    ensures Inv(Apply(q, step))
  {
    hide Inv, Local, NobodyHolds;
    var q', t := Apply(q, step), q.tasks[task];
    HolderFacts(q, task);
    if q' != q {
      WorkerIsLocal(q, q', task);
      SameHolders(q, q', task, q.rows[t.row].issue);
      LocalKeepsInv(q, q', t.row, task, t.envelope);
    }
  }

  lemma SameHolders(q: Queue, q': Queue, task: Id, issue: Id)
    requires q'.tasks.Keys == q.tasks.Keys
    requires forall t <- q.tasks :: q'.tasks[t].envelope == q.tasks[t].envelope
    ensures NobodyHolds(q', issue) <==> NobodyHolds(q, issue)
  {
  }

  lemma FewerHolders(q: Queue, q': Queue, issue: Id)
    requires forall t <- q'.tasks :: t in q.tasks && q'.tasks[t].envelope == q.tasks[t].envelope
    ensures NobodyHolds(q, issue) ==> NobodyHolds(q', issue)
  {
  }

  /** A worker that is not retrying leaves its row alone or finishes it. */
  ghost predicate Settles(r: Row, r': Row) {
    r' == r || (r.state.Leased? && (r' == Dropped(r) || r' == r.(state := Delivered, envelope := None)))
  }

  lemma SettledRowOk(q: Queue, q': Queue, row: Id)
    requires row in q.rows && row in q'.rows && RowOk(q, row) && Settles(q.rows[row], q'.rows[row])
    requires q'.counts == q.counts && q'.maxAttempts == q.maxAttempts
    requires NobodyHolds(q, q.rows[row].issue) ==> NobodyHolds(q', q.rows[row].issue)
    ensures RowOk(q', row)
  {
    hide NobodyHolds;
  }

  lemma SettledTaskOk(q: Queue, q': Queue, t: Task, phase: Phase)
    requires TaskOk(q, t) && q'.counts == q.counts && q'.maxAttempts == q.maxAttempts && q'.rows.Keys == q.rows.Keys
    requires forall r <- q.rows :: q'.rows[r].issue == q.rows[r].issue && q'.rows[r].attempts == q.rows[r].attempts
    requires (t.phase == Sent(true) && phase.Lost?) || (t.phase.Refused? && phase.Failing?)
    ensures TaskOk(q', t.(phase := phase))
  {
  }

  lemma SettlingKeepsInv(q: Queue, q': Queue, task: Id)
    requires Inv(q) && task in q.tasks && q'.counts == q.counts && q'.maxAttempts == q.maxAttempts
    requires q'.rows.Keys == q.rows.Keys && q.tasks[task].row in q.rows
    requires forall r <- q.rows :: r != q.tasks[task].row ==> q'.rows[r] == q.rows[r]
    requires Settles(q.rows[q.tasks[task].row], q'.rows[q.tasks[task].row])
    requires q'.tasks == q.tasks - {task} || (exists phase: Phase ::
               && ((q.tasks[task].phase == Sent(true) && phase.Lost?) || (q.tasks[task].phase.Refused? && phase.Failing?))
               && q'.tasks == q.tasks[task := q.tasks[task].(phase := phase)])
    ensures Inv(q')
  {
    hide Inv, Local, NobodyHolds, RowOk, TaskOk;
    var t := q.tasks[task];
    HolderFacts(q, task);
    WorkerIsLocal(q, q', task);
    FewerHolders(q, q', q.rows[t.row].issue);
    SettledRowOk(q, q', t.row);
    if task in q'.tasks {
      SettledTaskOk(q, q', t, q'.tasks[task].phase);
    }
    LocalKeepsInv(q, q', t.row, task, t.envelope);
  }

  lemma RefusalKeepsInv(q: Queue, step: Step, task: Id)
    requires Inv(q) && task in q.tasks && step.FailRefused? && step.task == task
    ensures Inv(Apply(q, step))
  {
    hide Inv, Classify, RowOk, TaskOk, CountOk;
    HolderFacts(q, task);
    TaskPlace(q, task);
    if Apply(q, step) != q {
      SettlingKeepsInv(q, Apply(q, step), task);
    }
  }

  lemma TaskPlace(q: Queue, task: Id)
    requires Inv(q) && task in q.tasks
    ensures q.tasks[task].row in q.rows && q.tasks[task].envelope in q.counts
  {
    assert TaskOk(q, q.tasks[task]);
  }

  lemma CompletionKeepsInv(q: Queue, step: Step, task: Id)
    requires Inv(q) && task in q.tasks && step.Complete? && step.task == task
    ensures Inv(Apply(q, step))
  {
    hide Inv, Classify, Eligible, RowOk, TaskOk, CountOk;
    HolderFacts(q, task);
    TaskPlace(q, task);
    if Apply(q, step) != q {
      SettlingKeepsInv(q, Apply(q, step), task);
    }
  }

  lemma FailureKeepsInv(q: Queue, step: Step, task: Id)
    requires Inv(q) && task in q.tasks && step.Fail? && step.task == task
    ensures Inv(Apply(q, step))
  {
    hide Inv, Local, Classify;
    var q', t := Apply(q, step), q.tasks[task];
    HolderFacts(q, task);
    if q' != q {
      WorkerIsLocal(q, q', task);
      LocalKeepsInv(q, q', t.row, task, t.envelope);
    }
  }

  lemma CrashKeepsInv(q: Queue, step: Step, task: Id)
    requires Inv(q) && task in q.tasks && step.Crash? && step.task == task
    ensures Inv(Apply(q, step))
  {
    hide Inv, Local, NobodyHolds;
    var q', t := Apply(q, step), q.tasks[task];
    HolderFacts(q, task);
    WorkerIsLocal(q, q', task);
    FewerHolders(q, q', q.rows[t.row].issue);
    LocalKeepsInv(q, q', t.row, task, t.envelope);
  }

  lemma LeaseKeepsInv(q: Queue, row: Id, task: Id)
    requires Inv(q) && row in q.rows && IsDue(q, q.rows[row]) && task !in q.tasks
    ensures Inv(LeaseRow(q, row, task))
  {
    hide Eligible, TaskOk, RowOk, CountOk;
    var q', r := LeaseRow(q, row, task), q.rows[row];
    RowFacts(q, row);
    LeasedOk(q, row, task);
    LocalKeepsInv(q, q', row, task, r.issue);
  }

  lemma RowFacts(q: Queue, row: Id)
    requires Inv(q) && row in q.rows
    ensures RowOk(q, row) && CountOk(q, q.rows[row].issue)
    ensures forall r <- q.rows :: q.rows[r].issue == q.rows[row].issue ==> r == row
    ensures q.rows[row].state.Pending? ==> NobodyHolds(q, q.rows[row].issue)
    ensures q.rows[row].envelope.Some? ==> q.rows[row].envelope.value == q.rows[row].issue
  {
  }

  lemma LeasedOk(q: Queue, row: Id, task: Id)
    requires row in q.rows && RowOk(q, row) && CountOk(q, q.rows[row].issue) && IsDue(q, q.rows[row])
    requires forall r <- q.rows :: q.rows[r].issue == q.rows[row].issue ==> r == row
    ensures var q' := LeaseRow(q, row, task);
            RowOk(q', row) && CountOk(q', q.rows[row].issue) && TaskOk(q', q'.tasks[task])
  {
    hide Eligible;
  }

  lemma IssuedTaskOk(q: Queue, row: Id, tenant: Id, envelope: Id, expires: Time, t: Task)
    requires TaskOk(q, t) && envelope !in q.counts
    requires t.row == row ==> !MayRetry(q.maxAttempts, t)
    ensures TaskOk(Issued(q, row, tenant, envelope, expires), t) && t.envelope != envelope
  {
    hide MayRetry;
  }

  /** What a new link needs: nobody who could retry still works on the row. */
  lemma IssuedKeepsInv(q: Queue, row: Id, tenant: Id, envelope: Id, expires: Time)
    requires Inv(q) && envelope !in q.counts && (row in q.rows ==> NoneRetries(q, row))
    ensures Inv(Issued(q, row, tenant, envelope, expires))
  {
    hide MayRetry, TaskOk;
    var q' := Issued(q, row, tenant, envelope, expires);
    forall t | t in q.tasks ensures TaskOk(q', q.tasks[t]) && q.tasks[t].envelope != envelope {
      TaskPlace(q, t);
      IssuedTaskOk(q, row, tenant, envelope, expires, q.tasks[t]);
    }
    forall r | r in q'.rows ensures RowOk(q', r) {
      if r != row { assert RowOk(q, r); }
    }
    forall e | e in q'.counts ensures CountOk(q', e) {
      if e != envelope { assert CountOk(q, e); }
    }
    forall r | r in q.rows ensures q.rows[r].issue != envelope { assert RowOk(q, r); }
  }

  /** A row that nobody works on drifts: it is marked, or swept. */
  ghost predicate Drifts(r: Row, r': Row) {
    r' == r.(used := r'.used, revoked := r'.revoked) || ((r.state.Pending? || r.state.Leased?) && r' == Dropped(r))
  }

  /** Same workers, same counts, and rows that drift. */
  ghost predicate Drifted(q: Queue, q': Queue) {
    && q'.tasks == q.tasks && q'.counts == q.counts && q'.maxAttempts == q.maxAttempts && q'.rows.Keys == q.rows.Keys
    && forall r <- q.rows :: Drifts(q.rows[r], q'.rows[r])
  }

  lemma DriftedRowOk(q: Queue, q': Queue, r: Id)
    requires Drifted(q, q') && r in q.rows && RowOk(q, r)
    ensures RowOk(q', r) && q'.rows[r].issue == q.rows[r].issue && q'.rows[r].attempts == q.rows[r].attempts
  {
    assert Drifts(q.rows[r], q'.rows[r]);
  }

  lemma DriftedTaskOk(q: Queue, q': Queue, t: Task)
    requires TaskOk(q, t) && q'.counts == q.counts && q'.maxAttempts == q.maxAttempts && q'.rows.Keys == q.rows.Keys
    requires forall r <- q.rows :: q'.rows[r].issue == q.rows[r].issue && q'.rows[r].attempts == q.rows[r].attempts
    ensures TaskOk(q', t)
  {
    hide MayRetry;
  }

  lemma DriftKeepsInv(q: Queue, q': Queue)
    requires Inv(q) && Drifted(q, q')
    ensures Inv(q')
  {
    hide RowOk, TaskOk, Drifts;
    forall r | r in q'.rows
      ensures RowOk(q', r) && q'.rows[r].issue == q.rows[r].issue && q'.rows[r].attempts == q.rows[r].attempts
    {
      DriftedRowOk(q, q', r);
    }
    forall t | t in q'.tasks ensures TaskOk(q', q'.tasks[t]) {
      DriftedTaskOk(q, q', q.tasks[t]);
    }
    forall e | e in q'.counts ensures CountOk(q', e) { assert CountOk(q, e); }
  }

  lemma SurroundingStepKeepsInv(q: Queue, step: Step)
    requires Inv(q) && (step.Tick? || step.SetTenant? || step.Use? || step.Revoke? || step.Swept?)
    ensures Inv(Apply(q, step))
  {
    hide Inv, Eligible;
    DriftKeepsInv(q, Apply(q, step));
  }

  lemma StepKeepsInv(q: Queue, step: Step)
    requires Inv(q) && Fair(q, step)
    ensures Inv(Apply(q, step))
  {
    hide Inv, Classify, Eligible, IsDue, SweepRows, LeaseRow, FailRow, CompleteRow, Submitted, NoneRetries, Issued;
    match step
    case Tick(_) => SurroundingStepKeepsInv(q, step);
    case SetTenant(_, _) => SurroundingStepKeepsInv(q, step);
    case Use(_) => SurroundingStepKeepsInv(q, step);
    case Revoke(_) => SurroundingStepKeepsInv(q, step);
    case Swept(_, _) => SurroundingStepKeepsInv(q, step);
    case Issue(row, tenant, envelope, expires) =>
      if row !in q.rows && envelope !in q.counts && tenant in q.tenants { IssuedKeepsInv(q, row, tenant, envelope, expires); }
    case Reissue(row, envelope, expires) =>
      if MayReissue(q, row, envelope) { IssuedKeepsInv(q, row, q.rows[row].tenant, envelope, expires); }
    case Lease(row, task) =>
      if row in q.rows && IsDue(q, q.rows[row]) && task !in q.tasks {
        LeaseKeepsInv(q, row, task);
      }
    case Check(task) => if task in q.tasks { WorkerStepKeepsInv(q, step, task); }
    case Send(task, _) => if task in q.tasks { SendKeepsInv(q, step, task); }
    case Throw(task, _) => if task in q.tasks { WorkerStepKeepsInv(q, step, task); }
    case FailRefused(task, _, _) => if task in q.tasks { RefusalKeepsInv(q, step, task); }
    case Complete(task, _) => if task in q.tasks { CompletionKeepsInv(q, step, task); }
    case Fail(task) => if task in q.tasks { FailureKeepsInv(q, step, task); }
    case Crash(task) =>
      if task in q.tasks { CrashKeepsInv(q, step, task); } else { assert q.tasks - {task} == q.tasks; }
  }

  // ---------------------------------------------------------------------------
  // Over whole runs
  // ---------------------------------------------------------------------------

  lemma {:induction false} RunKeepsInv(q: Queue, steps: seq<Step>)
    requires Inv(q) && FairRun(q, steps)
    ensures Inv(Run(q, steps)) && Run(q, steps).maxAttempts == q.maxAttempts
    decreases |steps|
  {
    hide Inv, Fair;
    if steps != [] {
      StepKeepsInv(q, steps[0]);
      RunKeepsInv(Apply(q, steps[0]), steps[1..]);
    }
  }

  /** However many workers run, crash and go stale, the provider accepts at most one mail of
      each issue and sees at most the configured number. */
  lemma DeliveredAtMostOnce(q: Queue, steps: seq<Step>, issue: Id)
    requires Inv(q) && FairRun(q, steps) && issue in Run(q, steps).counts
    ensures Run(q, steps).counts[issue].accepted <= 1 && Run(q, steps).counts[issue].sends <= q.maxAttempts
  {
    hide RowOk, TaskOk, OneHolder, DistinctIssues, Run, FairRun;
    RunKeepsInv(q, steps);
    assert CountOk(Run(q, steps), issue);
  }

  predicate Finished(r: Row) {
    r.state.Delivered? || r.state.Failed?
  }

  /** No finished row keeps its secret. */
  lemma FinishedRowsHoldNoSecret(q: Queue, steps: seq<Step>, row: Id)
    requires Inv(q) && FairRun(q, steps) && row in Run(q, steps).rows && Finished(Run(q, steps).rows[row])
    ensures Run(q, steps).rows[row].envelope.None?
  {
    hide TaskOk, CountOk, OneHolder, DistinctIssues, Run, FairRun;
    RunKeepsInv(q, steps);
    assert RowOk(Run(q, steps), row);
  }

  predicate Reissues(steps: seq<Step>, row: Id) {
    exists s <- steps :: s.Reissue? && s.row == row
  }

  predicate InFlight(q: Queue, row: Id) {
    exists t <- q.tasks :: q.tasks[t].row == row
  }

  /** How a step may change a row that it does not issue anew. */
  ghost predicate Moves(q: Queue, step: Step, x: Row, x': Row) {
    || x' == x
    || ((step.Use? || step.Revoke?) && x' == x.(used := x'.used, revoked := x'.revoked))
    || (!step.Lease? && (x.state.Pending? || x.state.Leased?) && x' == Dropped(x))
    || (step.Complete? && x.state.Leased? && x' == x.(state := Delivered, envelope := None))
    || (step.Fail? && x.state.Leased? && x' == x.(state := Pending, leasedAt := None, availableAt := x'.availableAt))
    || (step.Lease? && IsDue(q, x) && x' == x.(state := Leased, leasedAt := Some(q.now), attempts := x.attempts + 1))
  }

  predicate Renews(q: Queue, step: Step, row: Id) {
    step.Reissue? && step.row == row && MayReissue(q, row, step.envelope)
  }

  /** The worker a step belongs to. */
  function Actor(step: Step): Option<Id> {
    match step
    case Lease(_, task) => Some(task)
    case Check(task) => Some(task)
    case FailRefused(task, _, _) => Some(task)
    case Send(task, _) => Some(task)
    case Complete(task, _) => Some(task)
    case Throw(task, _) => Some(task)
    case Fail(task) => Some(task)
    case Crash(task) => Some(task)
    case _ => None
  }

  predicate Settling(step: Step) {
    step.FailRefused? || step.Complete? || step.Fail?
  }

  lemma FailRowMoves(q: Queue, t: Task, retryable: bool, row: Id)
    requires row in q.rows
    ensures var x, x' := q.rows[row], FailRow(q, t, retryable).rows[row];
            || x' == x || (x.state.Leased? && x' == Dropped(x))
            || (retryable && x.state.Leased? && x' == x.(state := Pending, leasedAt := None, availableAt := x'.availableAt))
  {
  }

  lemma CompleteRowMoves(q: Queue, done: Id, row: Id)
    requires row in q.rows
    ensures var x, x' := q.rows[row], CompleteRow(q, done).rows[row];
            x' == x || (x.state.Leased? && (x' == Dropped(x) || x' == x.(state := Delivered, envelope := None)))
  {
    hide Eligible;
  }

  lemma CompletionMovesRow(q: Queue, step: Step, row: Id)
    requires row in q.rows && step.Complete?
    ensures q.now <= Apply(q, step).now && row in Apply(q, step).rows
    ensures Moves(q, step, q.rows[row], Apply(q, step).rows[row])
  {
    hide CompleteRow, IsDue;
    if step.task in q.tasks { CompleteRowMoves(q, q.tasks[step.task].row, row); }
  }

  lemma FailureMovesRow(q: Queue, step: Step, row: Id)
    requires row in q.rows && (step.Fail? || step.FailRefused?)
    ensures q.now <= Apply(q, step).now && row in Apply(q, step).rows
    ensures Moves(q, step, q.rows[row], Apply(q, step).rows[row])
  {
    hide Classify, FailRow, IsDue;
    if step.task in q.tasks {
      var t := q.tasks[step.task];
      FailRowMoves(q, t, step.Fail? && t.phase.Failing? && t.phase.failure.retryable, row);
    }
  }

  lemma WorkerMovesRow(q: Queue, step: Step, row: Id)
    requires row in q.rows && Actor(step).Some? && !Settling(step)
    ensures q.now <= Apply(q, step).now && row in Apply(q, step).rows
    ensures Moves(q, step, q.rows[row], Apply(q, step).rows[row])
    ensures step.Lease? && step.row != row ==> Apply(q, step).rows[row] == q.rows[row]
  {
    hide Classify, Eligible, IsDue, StillEligible;
  }

  lemma SurroundingMovesRow(q: Queue, step: Step, row: Id)
    requires row in q.rows && Actor(step).None? && !Renews(q, step, row)
    ensures q.now <= Apply(q, step).now && row in Apply(q, step).rows
    ensures Moves(q, step, q.rows[row], Apply(q, step).rows[row])
  {
    hide Eligible, IsDue;
  }

  lemma RowMoves(q: Queue, step: Step, row: Id)
    requires row in q.rows && !Renews(q, step, row)
    ensures q.now <= Apply(q, step).now && row in Apply(q, step).rows
    ensures Moves(q, step, q.rows[row], Apply(q, step).rows[row])
    ensures step.Lease? && step.row != row ==> Apply(q, step).rows[row] == q.rows[row]
  {
    hide Apply, Moves, Renews;
    if Actor(step).None? {
      SurroundingMovesRow(q, step, row);
    } else if step.Complete? {
      CompletionMovesRow(q, step, row);
    } else if Settling(step) {
      FailureMovesRow(q, step, row);
    } else {
      WorkerMovesRow(q, step, row);
    }
  }

  lemma FinishedRowStays(q: Queue, step: Step, row: Id)
    requires row in q.rows && Finished(q.rows[row]) && !(step.Reissue? && step.row == row)
    ensures row in Apply(q, step).rows && Apply(q, step).rows[row].issue == q.rows[row].issue
    ensures Apply(q, step).rows[row].state == q.rows[row].state && Apply(q, step).rows[row].attempts == q.rows[row].attempts
  {
    hide Apply, Eligible;
    RowMoves(q, step, row);
  }

  lemma FinishedRowGainsNobody(q: Queue, step: Step, row: Id, t: Id)
    requires row in q.rows && Finished(q.rows[row])
    requires t in Apply(q, step).tasks && Apply(q, step).tasks[t].row == row
    ensures t in q.tasks && q.tasks[t].row == row
  {
    hide Classify, Eligible, StillEligible, Submitted, Sweeps;
  }

  lemma OnlyHoldersSubmit(q: Queue, step: Step, row: Id)
    requires Inv(q) && row in q.rows && !InFlight(q, row)
    ensures q.rows[row].issue in q.counts && q.rows[row].issue in Apply(q, step).counts
    ensures Apply(q, step).counts[q.rows[row].issue] == q.counts[q.rows[row].issue]
  {
    hide Inv, Classify, Eligible, StillEligible;
    IssueIsCounted(q, row);
    if step.Send? && step.task in q.tasks && q.tasks[step.task].envelope == q.rows[row].issue {
      HolderOfIssueIsOnRow(q, step.task, row);
    }
  }

  lemma IssueIsCounted(q: Queue, row: Id)
    requires Inv(q) && row in q.rows
    ensures q.rows[row].issue in q.counts
  {
    assert RowOk(q, row);
  }

  lemma HolderOfIssueIsOnRow(q: Queue, task: Id, row: Id)
    requires Inv(q) && task in q.tasks && row in q.rows && q.tasks[task].envelope == q.rows[row].issue
    ensures q.tasks[task].row == row
  {
    assert TaskOk(q, q.tasks[task]);
  }

  /** A finished row, a stale lease included, is never leased again before a reissue: its
      state and attempts stay, only a worker that already held it may go on, and without one
      the provider sees nothing more of its issue. */
  lemma {:induction false} FinishedIsFinal(q: Queue, steps: seq<Step>, row: Id)
    requires Inv(q) && FairRun(q, steps)
    requires row in q.rows && Finished(q.rows[row]) && !Reissues(steps, row)
    ensures var q' := Run(q, steps);
            && row in q'.rows && q'.rows[row].issue == q.rows[row].issue
            && q'.rows[row].state == q.rows[row].state && q'.rows[row].attempts == q.rows[row].attempts
            && (forall t <- q'.tasks :: q'.tasks[t].row == row ==> t in q.tasks && q.tasks[t].row == row)
            && (!InFlight(q, row) ==> q.rows[row].issue in q.counts && q.rows[row].issue in q'.counts
                                      && q'.counts[q.rows[row].issue] == q.counts[q.rows[row].issue])
    decreases |steps|
  {
    hide Apply, Inv, Fair, Finished;
    if steps == [] {
      if !InFlight(q, row) { OnlyHoldersSubmit(q, Tick(0), row); }
    } else {
      assert steps[0] in steps;
      assert forall s <- steps[1..] :: s in steps;
      var q1 := Apply(q, steps[0]);
      StepKeepsInv(q, steps[0]);
      FinishedRowStays(q, steps[0], row);
      assert Finished(q1.rows[row]) by { SameStateFinished(q.rows[row], q1.rows[row]); }
      forall t | t in q1.tasks && q1.tasks[t].row == row ensures t in q.tasks && q.tasks[t].row == row {
        FinishedRowGainsNobody(q, steps[0], row, t);
      }
      if !InFlight(q, row) { OnlyHoldersSubmit(q, steps[0], row); }
      FinishedIsFinal(q1, steps[1..], row);
    }
  }

  lemma SameStateFinished(r: Row, r': Row)
    requires Finished(r) && r'.state == r.state
    ensures Finished(r')
  {
  }

  /** Since a lease of its k-th attempt at a given time the row has been waiting, finished,
      or out of reach of another lease until the retry delay is over. */
  ghost predicate WaitsFor(q: Queue, row: Id, k: nat, since: Time) {
    && row in q.rows && since <= q.now && k <= q.rows[row].attempts
    && (q.rows[row].attempts == k ==>
          !q.rows[row].state.Pending? || since + Delay(k) <= q.rows[row].availableAt)
    && (k < q.rows[row].attempts ==> since + Delay(k) <= q.now)
  }

  lemma WaitingFail(q: Queue, task: Id, row: Id, k: nat, since: Time)
    requires Inv(q) && WaitsFor(q, row, k, since)
    ensures WaitsFor(Apply(q, Fail(task)), row, k, since)
  {
    hide Inv;
    if task in q.tasks {
      TaskPlace(q, task);
      HolderAttempts(q, task);
    }
  }

  lemma WaitingLease(q: Queue, step: Step, row: Id, k: nat, since: Time)
    requires step.Lease? && WaitsFor(q, row, k, since)
    ensures WaitsFor(Apply(q, step), row, k, since)
  {
    hide Eligible;
  }

  /** Other steps put no row back to pending. */
  lemma OnlyFailuresRepend(q: Queue, step: Step, row: Id)
    requires row in q.rows && !step.Fail? && !step.Lease? && !(step.Reissue? && step.row == row)
    ensures q.now <= Apply(q, step).now && row in Apply(q, step).rows
    ensures var r, r' := q.rows[row], Apply(q, step).rows[row];
            && r'.attempts == r.attempts
            && (r'.state.Pending? ==> r.state.Pending? && r'.availableAt == r.availableAt)
  {
    hide Apply, Eligible;
    RowMoves(q, step, row);
  }

  lemma WaitingStep(q: Queue, step: Step, row: Id, k: nat, since: Time)
    requires Inv(q) && WaitsFor(q, row, k, since) && !(step.Reissue? && step.row == row)
    ensures WaitsFor(Apply(q, step), row, k, since)
  {
    hide Inv, Apply;
    if step.Fail? {
      WaitingFail(q, step.task, row, k, since);
    } else if step.Lease? {
      WaitingLease(q, step, row, k, since);
    } else {
      OnlyFailuresRepend(q, step, row);
    }
  }

  /** A worker that may retry carries its row's own attempt count. */
  lemma HolderAttempts(q: Queue, task: Id)
    requires Inv(q) && task in q.tasks && q.tasks[task].row in q.rows
    ensures MayRetry(q.maxAttempts, q.tasks[task]) ==> q.tasks[task].attempts == q.rows[q.tasks[task].row].attempts
  {
    assert TaskOk(q, q.tasks[task]);
  }

  lemma {:induction false} WaitingRun(q: Queue, steps: seq<Step>, row: Id, k: nat, since: Time)
    requires Inv(q) && FairRun(q, steps) && WaitsFor(q, row, k, since) && !Reissues(steps, row)
    ensures WaitsFor(Run(q, steps), row, k, since)
    decreases |steps|
  {
    hide Inv, Apply, Fair, WaitsFor;
    if steps != [] {
      assert steps[0] in steps;
      assert forall s <- steps[1..] :: s in steps;
      WaitingStep(q, steps[0], row, k, since);
      StepKeepsInv(q, steps[0]);
      WaitingRun(Apply(q, steps[0]), steps[1..], row, k, since);
    }
  }

  /** Between the lease of one attempt and the next lie a minute after the first attempt and
      five after any other, whatever happens in between. */
  lemma AttemptsAreSpaced(q: Queue, steps: seq<Step>, row: Id)
    requires Inv(q) && FairRun(q, steps) && !Reissues(steps, row)
    requires row in q.rows && q.rows[row].state.Leased?
    ensures row in Run(q, steps).rows
    ensures Run(q, steps).rows[row].attempts > q.rows[row].attempts ==>
              q.now + Delay(q.rows[row].attempts) <= Run(q, steps).now
  {
    hide Inv, Run, FairRun;
    WaitingRun(q, steps, row, q.rows[row].attempts, q.now);
  }

  /** A row becomes delivered only by completing an accepted submission while it is still
      leased and its invitation eligible. */
  lemma DeliveredWasAcceptedAndEligible(q: Queue, step: Step, row: Id)
    requires row in q.rows && !q.rows[row].state.Delivered?
    requires row in Apply(q, step).rows && Apply(q, step).rows[row].state.Delivered?
    ensures step.Complete? && step.task in q.tasks && q.tasks[step.task].row == row && q.tasks[step.task].phase == Sent(true)
    ensures q.rows[row].state.Leased? && Eligible(q, q.rows[row])
  {
    hide Apply, Eligible;
    if Renews(q, step, row) {
      RenewedIsPending(q, step, row);
    } else {
      RowMoves(q, step, row);
      CompletionDelivers(q, step, row);
    }
  }

  lemma RenewedIsPending(q: Queue, step: Step, row: Id)
    requires Renews(q, step, row)
    ensures row in Apply(q, step).rows && Apply(q, step).rows[row].state.Pending? && Apply(q, step).rows[row].leasedAt.None?
    ensures Apply(q, step).rows[row].envelope == Some(Apply(q, step).rows[row].issue)
    ensures Apply(q, step).rows[row].issue in Apply(q, step).counts
  {
  }

  lemma CompletionDelivers(q: Queue, step: Step, row: Id)
    requires row in q.rows && !q.rows[row].state.Delivered? && step.Complete?
    requires row in Apply(q, step).rows && Apply(q, step).rows[row].state.Delivered?
    ensures step.task in q.tasks && q.tasks[step.task].row == row && q.tasks[step.task].phase == Sent(true)
    ensures q.rows[row].state.Leased? && Eligible(q, q.rows[row])
  {
    hide Eligible, Classify;
  }

  /** A worker submits only if its last check found the row leased and the invitation unused,
      unrevoked and unexpired in an active tenant. */
  lemma OnlyEligibleRowsAreSubmitted(q: Queue, task: Id, accepts: bool)
    requires task in q.tasks && q.tasks[task].phase.Held?
    ensures var q' := Apply(Apply(q, Check(task)), Send(task, accepts));
            q'.counts != q.counts ==> StillEligible(q, q.tasks[task].row)
  {
  }

  /** A sweep finishes exactly the chosen candidates, a stale lease included. */
  lemma SweepFinishesCandidates(q: Queue, kind: Sweep, chosen: set<Id>, row: Id)
    requires row in q.rows
    ensures var q' := Apply(q, Swept(kind, chosen));
            && row in q'.rows && q'.tasks == q.tasks
            && (if row in chosen && Sweeps(q, kind, q.rows[row]) then Finished(q'.rows[row]) && q'.rows[row].envelope.None?
                else q'.rows[row] == q.rows[row])
  {
  }

  /** A broken connection is never retried, whatever status it carries, and only the
      spelling of the name up to case and punctuation matters. */
  lemma UnknownOutcomeIsNeverRetried(e: Thrown, f: Thrown)
    requires Normalized(e.name) in AMBIGUOUS_TRANSPORT && Normalized(f.name) == Normalized(e.name)
    ensures Classify(f) == Failure("DELIVERY_OUTCOME_UNKNOWN", false)
  {
  }
}
