/** The worker as it runs: the claiming transaction with its three sweeps and its leases, and
    the delivery of one leased row with its error handling, as sequences of queue steps. */
module DeliveryWorker {
  import opened Basics
  import opened Delivery

  /** The batch limit, clamped. */
  function Bounded(limit: int): (n: nat)
    ensures 1 <= n <= 100 && (1 <= limit <= 100 ==> n == limit)
  {
    if limit < 1 then 1 else if limit > 100 then 100 else limit
  }

  // ---------------------------------------------------------------------------
  // Choosing rows
  // ---------------------------------------------------------------------------

  datatype Want = ToSweep(kind: Sweep) | ToLease

  predicate Wanted(q: Queue, want: Want, row: Id) {
    row in q.rows && match want case ToSweep(kind) => Sweeps(q, kind, q.rows[row]) case ToLease => IsDue(q, q.rows[row])
  }

  /** The first rows of an index scan that are wanted and not locked elsewhere, up to the limit. */
  function Taken(q: Queue, want: Want, scan: seq<Id>, locked: set<Id>, limit: nat): seq<Id> {
    if scan == [] then []
    else
      var front, last := Taken(q, want, scan[..|scan| - 1], locked, limit), scan[|scan| - 1];
      if |front| < limit && last !in locked && Wanted(q, want, last) then front + [last] else front
  }

  predicate NoRepeats(xs: seq<Id>) {
    forall i, j :: 0 <= i < j < |xs| ==> xs[i] != xs[j]
  }

  /** Wanted and free, without repeats and within the limit; below the limit nothing that is
      wanted and free is left out. */
  lemma {:induction false} TakenAreWanted(q: Queue, want: Want, scan: seq<Id>, locked: set<Id>, limit: nat)
    requires NoRepeats(scan)
    ensures var taken := Taken(q, want, scan, locked, limit);
            && |taken| <= limit && NoRepeats(taken)
            && (forall r <- taken :: r in scan && r !in locked && Wanted(q, want, r))
            && (|taken| < limit ==> forall r <- scan :: r !in locked && Wanted(q, want, r) ==> r in taken)
  {
    hide Wanted;
    if scan != [] {
      var rest := scan[..|scan| - 1];
      TakenAreWanted(q, want, rest, locked, limit);
      assert scan == rest + [scan[|scan| - 1]];
      assert scan[|scan| - 1] !in rest;
    }
  }

  ghost predicate Precedes(scan: seq<Id>, a: Id, b: Id) {
    exists i, j :: 0 <= i < j < |scan| && scan[i] == a && scan[j] == b
  }

  lemma StillPrecedes(scan: seq<Id>, n: nat, a: Id, b: Id)
    requires n <= |scan| && Precedes(scan[..n], a, b)
    ensures Precedes(scan, a, b)
  {
    var i, j :| 0 <= i < j < n && scan[..n][i] == a && scan[..n][j] == b;
    assert scan[i] == a && scan[j] == b;
  }

  lemma PrecedesLast(scan: seq<Id>, a: Id)
    requires scan != [] && a in scan[..|scan| - 1]
    ensures Precedes(scan, a, scan[|scan| - 1])
  {
    var i :| 0 <= i < |scan| - 1 && scan[..|scan| - 1][i] == a;
    assert scan[i] == a;
  }

  /** They are taken in the order of the scan, before everything else that is wanted and free. */
  lemma {:induction false} TakenAreFirst(q: Queue, want: Want, scan: seq<Id>, locked: set<Id>, limit: nat)
    requires NoRepeats(scan)
    ensures var taken := Taken(q, want, scan, locked, limit);
            && (forall i, j :: 0 <= i < j < |taken| ==> Precedes(scan, taken[i], taken[j]))
            && (forall d <- taken, r <- scan :: r !in locked && Wanted(q, want, r) && r !in taken ==> Precedes(scan, d, r))
  {
    hide Wanted, Precedes;
    if scan != [] {
      var n := |scan| - 1;
      var rest, last := scan[..n], scan[n];
      var front, taken := Taken(q, want, rest, locked, limit), Taken(q, want, scan, locked, limit);
      TakenAreWanted(q, want, rest, locked, limit);
      TakenAreFirst(q, want, rest, locked, limit);
      assert scan == rest + [last];
      forall i, j | 0 <= i < j < |taken| ensures Precedes(scan, taken[i], taken[j]) {
        if j < |front| { StillPrecedes(scan, n, taken[i], taken[j]); } else { PrecedesLast(scan, taken[i]); }
      }
      forall d, r | d in taken && r in scan && r !in locked && Wanted(q, want, r) && r !in taken ensures Precedes(scan, d, r) {
        if r == last { PrecedesLast(scan, d); } else { StillPrecedes(scan, n, d, r); }
      }
    }
  }

  /** The order of the index on the time a row becomes available, then on its identifier. */
  predicate Earlier(q: Queue, a: Id, b: Id)
    requires a in q.rows && b in q.rows
  {
    q.rows[a].availableAt < q.rows[b].availableAt || (q.rows[a].availableAt == q.rows[b].availableAt && a < b)
  }

  predicate LeasedEarlier(q: Queue, a: Id, b: Id)
    requires a in q.rows && b in q.rows && q.rows[a].leasedAt.Some? && q.rows[b].leasedAt.Some?
  {
    q.rows[a].leasedAt.value < q.rows[b].leasedAt.value || (q.rows[a].leasedAt == q.rows[b].leasedAt && a < b)
  }

  /** Every row, in that order. */
  predicate AvailabilityScan(q: Queue, scan: seq<Id>) {
    && (forall r <- q.rows :: r in scan) && (forall r <- scan :: r in q.rows)
    && (forall i, j :: 0 <= i < j < |scan| ==> Earlier(q, scan[i], scan[j]))
  }

  /** Every row with a lease, in the order of the leases. */
  predicate LeaseScan(q: Queue, scan: seq<Id>) {
    && (forall r <- q.rows :: q.rows[r].leasedAt.Some? ==> r in scan)
    && (forall r <- scan :: r in q.rows && q.rows[r].leasedAt.Some?)
    && (forall i, j :: 0 <= i < j < |scan| ==> LeasedEarlier(q, scan[i], scan[j]))
  }

  lemma ScansDoNotRepeat(q: Queue, scan: seq<Id>)
    requires AvailabilityScan(q, scan) || LeaseScan(q, scan)
    ensures NoRepeats(scan)
  {
    forall i, j | 0 <= i < j < |scan| ensures scan[i] != scan[j] {
      if AvailabilityScan(q, scan) {
        assert Earlier(q, scan[i], scan[j]);
      } else {
        assert LeasedEarlier(q, scan[i], scan[j]);
      }
    }
  }

  lemma PrecedingIsEarlier(q: Queue, scan: seq<Id>, a: Id, b: Id)
    requires AvailabilityScan(q, scan) && Precedes(scan, a, b)
    ensures a in q.rows && b in q.rows && Earlier(q, a, b)
  {
  }

  /** The rows are taken in order; below the limit no free due row of the table is left, and
      otherwise none that was available earlier. */
  ghost predicate FirstComeFirst(q: Queue, q': Queue, due: seq<Id>, locked: set<Id>, limit: nat) {
    && (forall d <- due :: d in q.rows)
    && (forall i, j :: 0 <= i < j < |due| ==> Earlier(q, due[i], due[j]))
    && (forall r <- q.rows :: r !in locked && Wanted(q', ToLease, r) ==> |due| == limit && forall d <- due :: Earlier(q, d, r))
  }

  lemma LeasedInOrder(q0: Queue, q: Queue, q': Queue, scan: seq<Id>, locked: set<Id>, limit: nat)
    requires AvailabilityScan(q0, scan)
    requires forall r :: Wanted(q', ToLease, r) ==> r !in Taken(q, ToLease, scan, locked, limit) && Wanted(q, ToLease, r)
    ensures FirstComeFirst(q0, q', Taken(q, ToLease, scan, locked, limit), locked, limit)
  {
    hide Wanted, Earlier, Taken, Precedes, AvailabilityScan;
    ScansDoNotRepeat(q0, scan);
    ScanHasAll(q0, scan);
    TakenAreWanted(q, ToLease, scan, locked, limit);
    TakenAreFirst(q, ToLease, scan, locked, limit);
    forall a, b | Precedes(scan, a, b) ensures a in q0.rows && b in q0.rows && Earlier(q0, a, b) {
      PrecedingIsEarlier(q0, scan, a, b);
    }
  }

  lemma ScanHasAll(q: Queue, scan: seq<Id>)
    requires AvailabilityScan(q, scan)
    ensures forall r :: r in q.rows <==> r in scan
  {
  }

  function Elements(xs: seq<Id>): set<Id> {
    set x | x in xs
  }

  function SweptOnce(q: Queue, kind: Sweep, scan: seq<Id>, locked: set<Id>, limit: nat): Queue {
    SweepRows(q, kind, Elements(Taken(q, ToSweep(kind), scan, locked, limit)))
  }

  /** The queue after the three sweeps of one claiming transaction. */
  function SweptAll(q: Queue, byAvailability: seq<Id>, byLease: seq<Id>, locked: set<Id>, limit: nat): Queue {
    SweptOnce(SweptOnce(SweptOnce(q, Legacy, byAvailability, locked, limit), Stale, byLease, locked, limit),
              Ineligible, byAvailability, locked, limit)
  }

  function Leases(due: seq<Id>, ids: seq<Id>): seq<Step>
    requires |due| == |ids|
  {
    seq(|due|, i requires 0 <= i < |due| => Lease(due[i], ids[i]))
  }

  lemma SweptAllKeepsInv(q: Queue, byAvailability: seq<Id>, byLease: seq<Id>, locked: set<Id>, limit: nat)
    requires Inv(q)
    ensures Inv(SweptAll(q, byAvailability, byLease, locked, limit))
  {
    hide Inv, SweepRows, Taken;
    var q1 := SweptOnce(q, Legacy, byAvailability, locked, limit);
    var q2 := SweptOnce(q1, Stale, byLease, locked, limit);
    SurroundingStepKeepsInv(q, Swept(Legacy, Elements(Taken(q, ToSweep(Legacy), byAvailability, locked, limit))));
    SurroundingStepKeepsInv(q1, Swept(Stale, Elements(Taken(q1, ToSweep(Stale), byLease, locked, limit))));
    SurroundingStepKeepsInv(q2, Swept(Ineligible, Elements(Taken(q2, ToSweep(Ineligible), byAvailability, locked, limit))));
  }

  // ---------------------------------------------------------------------------
  // The course of one delivery
  // ---------------------------------------------------------------------------

  /** How the provider call ends: an answer means the mail was accepted. */
  datatype Reply = Answered | Raised(error: Thrown, accepted: bool)

  /** How a transaction ends. */
  datatype Ending = Committed | RolledBack(why: Thrown) | ReplyLost(why: Thrown)

  /** What happens at each point where something can go wrong: reading the row once more,
      refusing it, opening its envelope, submitting, completing, and failing in the end. */
  datatype Course = Course(reading: Option<Thrown>, refusing: Ending, opening: Option<Thrown>, reply: Reply,
                           completing: Ending, failingCommits: bool)

  /** The steps inside the guarded block. */
  function Guarded(q: Queue, task: Id, c: Course): seq<Step>
    requires task in q.tasks
  {
    if c.reading.Some? then []
    else if !StillEligible(q, q.tasks[task].row) then
      [Check(task), FailRefused(task, !c.refusing.RolledBack?, Escaping(q, task, c))]
    else if c.opening.Some? then [Check(task)]
    else if c.reply.Raised? then [Check(task), Send(task, c.reply.accepted)]
    else
      [Check(task), Send(task, true)] +
      if c.completing.RolledBack? then [] else [Complete(task, c.completing.ReplyLost?)]
  }

  /** What the block throws. */
  function Escaping(q: Queue, task: Id, c: Course): Option<Thrown>
    requires task in q.tasks
  {
    if c.reading.Some? then c.reading
    else if !StillEligible(q, q.tasks[task].row) then
      if c.refusing.Committed? then None else Some(c.refusing.why)
    else if c.opening.Some? then c.opening
    else if c.reply.Raised? then Some(c.reply.error)
    else if c.completing.Committed? then None
    else Some(c.completing.why)
  }

  /** A throwing refusal is classified by the step that throws. */
  predicate Refuses(q: Queue, task: Id, c: Course)
    requires task in q.tasks
  {
    c.reading.None? && !StillEligible(q, q.tasks[task].row)
  }

  /** The steps one delivery takes: whatever escapes the block is classified and fails the
      row, unless that last transaction is lost as well. */
  function Trace(q: Queue, task: Id, c: Course): seq<Step>
    requires task in q.tasks
  {
    var thrown := Escaping(q, task, c);
    if thrown.None? then Guarded(q, task, c)
    else
      Guarded(q, task, c) + (if Refuses(q, task, c) then [] else [Throw(task, thrown.value)])
      + [if c.failingCommits then Fail(task) else Crash(task)]
  }

  /** After an acceptance nothing of a retryable class is thrown. */
  predicate Honest(c: Course) {
    && (c.reply.Raised? && c.reply.accepted ==> !Classify(c.reply.error).retryable)
    && (c.reply.Answered? && !c.completing.Committed? ==> !Classify(c.completing.why).retryable)
  }

  lemma RunOneMore(q: Queue, steps: seq<Step>, last: Step)
    ensures Run(q, steps + [last]) == Apply(Run(q, steps), last)
    ensures FairRun(q, steps + [last]) <==> FairRun(q, steps) && Fair(Run(q, steps), last)
  {
    hide Apply, Fair;
    RunAppends(q, steps, [last]);
    FairRunAppends(q, steps, [last]);
  }

  /** A step that neither throws nor reissues asks nothing of the environment. */
  lemma QuietStep(q: Queue, steps: seq<Step>, last: Step)
    requires !last.Throw? && !last.Reissue?
    ensures Run(q, steps + [last]) == Apply(Run(q, steps), last)
    ensures FairRun(q, steps + [last]) <==> FairRun(q, steps)
  {
    hide Apply, Run, FairRun;
    RunOneMore(q, steps, last);
  }

  lemma HonestThrow(q: Queue, steps: seq<Step>, task: Id, e: Thrown)
    requires task in Run(q, steps).tasks
    requires WasAccepted(Run(q, steps).tasks[task].phase) ==> !Classify(e).retryable
    ensures Run(q, steps + [Throw(task, e)]) == Apply(Run(q, steps), Throw(task, e))
    ensures FairRun(q, steps + [Throw(task, e)]) <==> FairRun(q, steps)
  {
    hide Apply, Run, FairRun, Classify;
    RunOneMore(q, steps, Throw(task, e));
  }

  /** The rows, and only they, are leased, and each task holds its row. */
  ghost predicate LeasedFrom(q: Queue, q': Queue, due: seq<Id>, ids: seq<Id>)
    requires |due| == |ids|
  {
    && q' == q.(rows := q'.rows, tasks := q'.tasks) && q'.rows.Keys == q.rows.Keys
    && (forall r <- q.rows :: if r in due then q'.rows[r].state.Leased? else q'.rows[r] == q.rows[r])
    && q'.tasks.Keys == q.tasks.Keys + Elements(ids)
    && (forall i :: 0 <= i < |due| ==> Holds(q, q', due[i], ids[i]))
  }

  lemma OneLeaseMore(q: Queue, q1: Queue, due: seq<Id>, ids: seq<Id>, row: Id, task: Id)
    requires |due| == |ids| && LeasedFrom(q, q1, due, ids) && row !in due && task !in ids
    requires Wanted(q, ToLease, row) && task !in q.tasks
    ensures LeasedFrom(q, Apply(q1, Lease(row, task)), due + [row], ids + [task])
  {
    hide Apply, Wanted, Holds;
    WantedIsThere(q, row);
    LeaseOfOne(q, q1, row, task);
    var q' := Apply(q1, Lease(row, task));
    assert Elements(ids + [task]) == Elements(ids) + {task};
    forall i | 0 <= i < |due| + 1 ensures Holds(q, q', (due + [row])[i], (ids + [task])[i]) {
      if i < |due| {
        assert Holds(q, q1, due[i], ids[i]) && ids[i] in ids;
        HoldsStill(q, q1, q', due[i], ids[i]);
      }
    }
  }

  lemma HoldsStill(q: Queue, q1: Queue, q': Queue, row: Id, task: Id)
    requires Holds(q, q1, row, task) && task in q'.tasks && q'.tasks[task] == q1.tasks[task]
    ensures Holds(q, q', row, task)
  {
  }

  /** Leases of different wanted rows under tasks of their own do just that. */
  lemma {:induction false} LeasesMeaning(q: Queue, due: seq<Id>, ids: seq<Id>)
    requires |due| == |ids| && NoRepeats(due) && NoRepeats(ids)
    requires (forall r <- due :: Wanted(q, ToLease, r)) && (forall t <- ids :: t !in q.tasks)
    ensures FairRun(q, Leases(due, ids)) && LeasedFrom(q, Run(q, Leases(due, ids)), due, ids)
  {
    hide Apply, Fair, Run, FairRun, Wanted;
    if due == [] {
      assert Leases(due, ids) == [];
      RunOfNothing(q);
    } else {
      hide LeasedFrom;
      var n := |due| - 1;
      LeasesMeaning(q, due[..n], ids[..n]);
      assert Leases(due, ids) == Leases(due[..n], ids[..n]) + [Lease(due[n], ids[n])];
      QuietStep(q, Leases(due[..n], ids[..n]), Lease(due[n], ids[n]));
      assert due[n] in due && due[n] !in due[..n] && ids[n] in ids && ids[n] !in ids[..n];
      assert due == due[..n] + [due[n]] && ids == ids[..n] + [ids[n]];
      OneLeaseMore(q, Run(q, Leases(due[..n], ids[..n])), due[..n], ids[..n], due[n], ids[n]);
    }
  }

  /** The task holds the row for its next attempt. */
  predicate Holds(q: Queue, q': Queue, row: Id, task: Id) {
    && row in q.rows && task in q'.tasks
    && q'.tasks[task] == Task(row, q.rows[row].attempts + 1, q'.tasks[task].envelope, Held)
  }

  lemma LeaseOfOne(q: Queue, q1: Queue, row: Id, task: Id)
    requires q1 == q.(rows := q1.rows, tasks := q1.tasks) && Wanted(q, ToLease, row)
    requires row in q1.rows && q1.rows[row] == q.rows[row] && task !in q1.tasks
    ensures IsDue(q1, q1.rows[row])
    ensures var q' := Apply(q1, Lease(row, task));
            && q' == q1.(rows := q1.rows[row := q'.rows[row]], tasks := q1.tasks[task := q'.tasks[task]])
            && q'.rows[row].state.Leased? && Holds(q, q', row, task)
  {
  }

  lemma RunOfNothing(q: Queue)
    ensures Run(q, []) == q && FairRun(q, [])
  {
  }

  class Worker {
    var now: Time
    const maxAttempts: nat
    var tenants: map<Id, bool>
    var rows: map<Id, Row>
    var tasks: map<Id, Task>
    var counts: map<Id, Count>

    function View(): Queue
      reads this
    {
      Queue(now, maxAttempts, tenants, rows, tasks, counts)
    }

    constructor (q: Queue)
      ensures View() == q
    {
      now, maxAttempts, tenants, rows, tasks, counts := q.now, q.maxAttempts, q.tenants, q.rows, q.tasks, q.counts;
    }

    /** Scans an index for the rows to work on, skipping what is locked. */
    method Candidates(want: Want, scan: seq<Id>, locked: set<Id>, limit: nat) returns (chosen: seq<Id>)
      ensures chosen == Taken(View(), want, scan, locked, limit)
    {
      hide Wanted;
      chosen := [];
      for i := 0 to |scan|
        invariant chosen == Taken(View(), want, scan[..i], locked, limit)
      {
        assert scan[..i + 1][..i] == scan[..i];
        if |chosen| < limit && scan[i] !in locked && Wanted(View(), want, scan[i]) {
          chosen := chosen + [scan[i]];
        }
      }
      assert scan[..|scan|] == scan;
    }

    /** Fails the chosen rows one by one. */
    method FailCandidates(kind: Sweep, chosen: seq<Id>)
      requires NoRepeats(chosen) && forall r <- chosen :: Wanted(View(), ToSweep(kind), r)
      modifies this`rows
      ensures View() == SweepRows(old(View()), kind, Elements(chosen))
    {
      for i := 0 to |chosen|
        invariant rows.Keys == old(rows).Keys
        invariant forall r <- rows :: rows[r] == if r in chosen[..i] then Dropped(old(rows)[r]) else old(rows)[r]
      {
        var r := chosen[i];
        assert Wanted(old(View()), ToSweep(kind), r);
        rows := rows[r := rows[r].(state := State.Failed, envelope := None)];
      }
      assert chosen[..|chosen|] == chosen;
    }

    /** One claiming transaction: three sweeps, then a lease for every due row it takes, each
        under a task of its own. They are leased in the order in which they became available;
        below the limit no free due row is left, and otherwise none that was available earlier. */
    method ProcessPending(limit: int, byAvailability: seq<Id>, byLease: seq<Id>, locked: set<Id>, ids: seq<Id>)
      returns (leased: seq<Id>)
      requires AvailabilityScan(View(), byAvailability) && LeaseScan(View(), byLease) && NoRepeats(ids)
      requires |ids| == Bounded(limit) && forall t <- ids :: t !in tasks
      modifies this`rows, this`tasks
      ensures var q := SweptAll(old(View()), byAvailability, byLease, locked, Bounded(limit));
              var due := Taken(q, ToLease, byAvailability, locked, Bounded(limit));
              && |due| <= |ids| && leased == ids[..|due|]
              && View() == Run(q, Leases(due, leased))
              && (forall i :: 0 <= i < |due| ==> Holds(q, View(), due[i], leased[i]))
              && FirstComeFirst(old(View()), View(), due, locked, Bounded(limit))
      ensures Inv(old(View())) ==> Inv(View())
    {
      hide SweepRows, Run, Inv, SweptAll, Wanted, Sweeps, Taken, IsDue, FairRun, AvailabilityScan, LeaseScan, FirstComeFirst;
      var n := Bounded(limit);
      ScansDoNotRepeat(View(), byAvailability);
      ScansDoNotRepeat(View(), byLease);
      ghost var q0 := View();
      Sweep(Legacy, byAvailability, locked, n);
      Sweep(Stale, byLease, locked, n);
      Sweep(Ineligible, byAvailability, locked, n);
      ghost var q := View();
      SweptAllUnfolds(q0, byAvailability, byLease, locked, n);
      var due := Candidates(ToLease, byAvailability, locked, n);
      TakenAreWanted(q, ToLease, byAvailability, locked, n);
      leased := ids[..|due|];
      LeasesMeaning(q, due, leased);
      LeaseAll(due, leased);
      LeasedIsNotDue(q, View(), due);
      LeasedInOrder(q0, q, View(), byAvailability, locked, n);
      if Inv(q0) {
        SweptAllKeepsInv(q0, byAvailability, byLease, locked, n);
        RunKeepsInv(q, Leases(due, leased));
      }
    }

    method Sweep(kind: Delivery.Sweep, scan: seq<Id>, locked: set<Id>, limit: nat)
      requires NoRepeats(scan)
      modifies this`rows
      ensures View() == SweptOnce(old(View()), kind, scan, locked, limit)
    {
      var chosen := Candidates(ToSweep(kind), scan, locked, limit);
      TakenAreWanted(View(), ToSweep(kind), scan, locked, limit);
      FailCandidates(kind, chosen);
    }

    method LeaseAll(due: seq<Id>, ids: seq<Id>)
      requires |due| == |ids| && NoRepeats(due) && NoRepeats(ids)
      requires forall r <- due :: Wanted(View(), ToLease, r)
      requires forall t <- ids :: t !in tasks
      modifies this`rows, this`tasks
      ensures View() == Run(old(View()), Leases(due, ids))
    {
      hide Run, FairRun, Eligible, Wanted, Apply;
      ghost var q0 := View();
      assert Leases(due[..0], ids[..0]) == [];
      RunOfNothing(q0);
      for i := 0 to |due|
        invariant View() == Run(q0, Leases(due[..i], ids[..i]))
      {
        LeasesMeaning(q0, due[..i], ids[..i]);
        assert due[i] !in due[..i] && due[i] in due && ids[i] !in ids[..i] && ids[i] in ids;
        assert due[i] in q0.rows by { WantedIsThere(q0, due[i]); }
        LeaseOfOne(q0, View(), due[i], ids[i]);
        QuietStep(q0, Leases(due[..i], ids[..i]), Lease(due[i], ids[i]));
        assert Leases(due[..i + 1], ids[..i + 1]) == Leases(due[..i], ids[..i]) + [Lease(due[i], ids[i])];
        LeaseDue(due[i], ids[i]);
      }
      assert due[..|due|] == due && ids[..|due|] == ids;
    }

    method LeaseDue(row: Id, task: Id)
      requires row in rows && IsDue(View(), rows[row]) && task !in tasks
      modifies this`rows, this`tasks
      ensures View() == Apply(old(View()), Lease(row, task))
    {
      var r := rows[row];
      rows := rows[row := r.(state := Leased, leasedAt := Some(now), attempts := r.attempts + 1)];
      tasks := tasks[task := Task(row, r.attempts + 1, r.envelope.value, Held)];
    }

    /** Reads the row once more just before submitting. */
    method IsStillEligible(task: Id) returns (eligible: bool)
      requires task in tasks && tasks[task].phase.Held?
      modifies this`tasks
      ensures eligible == StillEligible(old(View()), old(tasks[task].row))
      ensures View() == Apply(old(View()), Check(task))
      ensures task in tasks && tasks[task] == old(tasks[task]).(phase := if eligible then Checked else Refused)
    {
      eligible := StillEligible(View(), tasks[task].row);
      tasks := tasks[task := tasks[task].(phase := if eligible then Checked else Refused)];
    }

    /** The failing transaction: back to pending while attempts remain and the class allows
        it, otherwise failed for good; a row that is no longer leased is left alone. */
    method FailRow(t: Task, retryable: bool)
      modifies this`rows
      ensures View() == Delivery.FailRow(old(View()), t, retryable)
    {
      if t.row !in rows || !rows[t.row].state.Leased? { return; }
      var r := rows[t.row];
      if retryable && t.attempts < maxAttempts {
        var delay := if t.attempts == 1 then 60 else 300;
        rows := rows[t.row := r.(state := Pending, availableAt := now + delay, leasedAt := None)];
        return;
      }
      rows := rows[t.row := r.(state := State.Failed, envelope := None)];
    }

    /** Fails the row for what was thrown, or loses that transaction and leaves the row leased. */
    method FailInTheEnd(task: Id, commits: bool)
      requires task in tasks && tasks[task].phase.Failing?
      modifies this`rows, this`tasks
      ensures View() == Apply(old(View()), if commits then Fail(task) else Crash(task))
      ensures task !in tasks
    {
      if commits {
        FailRow(tasks[task], tasks[task].phase.failure.retryable);
      }
      tasks := tasks - {task};
    }

    /** Refuses the row; what its transaction throws is caught like everything else. */
    method Refuse(task: Id, ending: Ending) returns (thrown: Option<Thrown>)
      requires task in tasks && tasks[task].phase.Refused?
      modifies this`rows, this`tasks
      ensures thrown == if ending.Committed? then None else Some(ending.why)
      ensures View() == Apply(old(View()), FailRefused(task, !ending.RolledBack?, thrown))
      ensures thrown.None? <==> task !in tasks
      ensures thrown.Some? ==> tasks[task].phase.Failing?
    {
      if !ending.RolledBack? {
        FailRow(tasks[task], false);
      }
      if ending.Committed? {
        tasks := tasks - {task};
        return None;
      }
      tasks := tasks[task := tasks[task].(phase := Failing(Classify(ending.why)))];
      thrown := Some(ending.why);
    }

    /** Hands the mail to the provider, which accepts it or not. */
    method Submit(task: Id, accepted: bool)
      requires task in tasks && tasks[task].phase.Checked?
      modifies this`tasks, this`counts
      ensures View() == Apply(old(View()), Send(task, accepted))
      ensures task in tasks && tasks[task].phase == Sent(accepted)
    {
      counts := Submitted(View(), tasks[task].envelope, accepted).counts;
      tasks := tasks[task := tasks[task].(phase := Sent(accepted))];
    }

    /** The completing transaction: delivered if still leased and eligible, else failed. */
    method Complete(task: Id, ending: Ending) returns (thrown: Option<Thrown>)
      requires task in tasks && tasks[task].phase == Sent(true)
      modifies this`rows, this`tasks
      ensures thrown == if ending.Committed? then None else Some(ending.why)
      ensures View() == if ending.RolledBack? then old(View())
                        else Apply(old(View()), Step.Complete(task, ending.ReplyLost?))
      ensures thrown.None? <==> task !in tasks
      ensures thrown.Some? ==> tasks[task].phase == if ending.RolledBack? then Sent(true) else Lost
    {
      if ending.RolledBack? { return Some(ending.why); }
      var row := tasks[task].row;
      if row in rows && rows[row].state.Leased? {
        if Eligible(View(), rows[row]) {
          rows := rows[row := rows[row].(state := Delivered, envelope := None)];
        } else {
          rows := rows[row := rows[row].(state := State.Failed, envelope := None)];
        }
      }
      if ending.Committed? {
        tasks := tasks - {task};
        return None;
      }
      tasks := tasks[task := tasks[task].(phase := Lost)];
      thrown := Some(ending.why);
    }

    /** What was thrown is classified, unless a refusal has done so, and fails the row. */
    method Catch(task: Id, error: Thrown, commits: bool)
      requires task in tasks && !tasks[task].phase.Refused?
      modifies this`rows, this`tasks
      ensures var q := if old(tasks[task].phase.Failing?) then old(View()) else Apply(old(View()), Throw(task, error));
              View() == Apply(q, if commits then Fail(task) else Crash(task))
      ensures task !in tasks
    {
      if !tasks[task].phase.Failing? {
        tasks := tasks[task := tasks[task].(phase := Failing(Classify(error)))];
      }
      FailInTheEnd(task, commits);
    }

    /** The guarded part of a delivery: the last check, the envelope, the submission and its
        completion. done lists its steps. */
    method Attempt(task: Id, c: Course) returns (thrown: Option<Thrown>, ghost done: seq<Step>)
      requires task in tasks && tasks[task].phase.Held?
      modifies this`rows, this`tasks, this`counts
      ensures done == Guarded(old(View()), task, c) && thrown == Escaping(old(View()), task, c)
      ensures View() == Run(old(View()), done) && FairRun(old(View()), done)
      ensures thrown.None? <==> task !in tasks
      ensures thrown.Some? ==>
                !tasks[task].phase.Refused? && (tasks[task].phase.Failing? <==> Refuses(old(View()), task, c))
      ensures thrown.Some? && Honest(c) && WasAccepted(tasks[task].phase) ==> !Classify(thrown.value).retryable
    {
      hide StillEligible, Apply, Fair, Classify, Run, FairRun;
      ghost var q0 := View();
      done := [];
      RunOfNothing(q0);
      if c.reading.Some? { return c.reading, done; }
      QuietStep(q0, [], Check(task));
      assert [] + [Check(task)] == [Check(task)];
      var eligible := IsStillEligible(task);
      done := [Check(task)];
      if !eligible {
        thrown := Refuse(task, c.refusing);
        QuietStep(q0, done, FailRefused(task, !c.refusing.RolledBack?, thrown));
        done := done + [FailRefused(task, !c.refusing.RolledBack?, thrown)];
        return;
      }
      if c.opening.Some? { return c.opening, done; }
      Submit(task, c.reply.Answered? || c.reply.accepted);
      QuietStep(q0, done, Send(task, c.reply.Answered? || c.reply.accepted));
      done := done + [Send(task, c.reply.Answered? || c.reply.accepted)];
      if c.reply.Raised? { return Some(c.reply.error), done; }
      thrown := Complete(task, c.completing);
      if !c.completing.RolledBack? {
        QuietStep(q0, done, Step.Complete(task, c.completing.ReplyLost?));
        done := done + [Step.Complete(task, c.completing.ReplyLost?)];
      }
    }

    /** Delivers one leased row. The worker is done afterwards, and an honest course keeps the
        queue's invariant. */
    method Deliver(task: Id, c: Course)
      requires task in tasks && tasks[task].phase.Held?
      modifies this`rows, this`tasks, this`counts
      ensures View() == Run(old(View()), Trace(old(View()), task, c))
      ensures task !in tasks
      ensures Inv(old(View())) && Honest(c) ==> Inv(View())
    {
      hide Apply, Fair, Inv, Classify, Run, FairRun, Guarded, Escaping, Refuses, Honest;
      ghost var q0 := View();
      var thrown, done := Attempt(task, c);
      if thrown.Some? {
        if !tasks[task].phase.Failing? {
          if Honest(c) { HonestThrow(q0, done, task, thrown.value); }
          RunOneMore(q0, done, Throw(task, thrown.value));
          done := done + [Throw(task, thrown.value)];
        }
        QuietStep(q0, done, if c.failingCommits then Fail(task) else Crash(task));
        done := done + [if c.failingCommits then Fail(task) else Crash(task)];
        Catch(task, thrown.value, c.failingCommits);
      }
      assert done == Trace(q0, task, c);
      if Inv(q0) && Honest(c) {
        RunKeepsInv(q0, done);
      }
    }
  }

  lemma LeasedIsNotDue(q: Queue, q': Queue, due: seq<Id>)
    requires q'.now == q.now && q'.tenants == q.tenants && q'.rows.Keys == q.rows.Keys
    requires forall r <- q.rows :: if r in due then q'.rows[r].state.Leased? else q'.rows[r] == q.rows[r]
    ensures forall r :: Wanted(q', ToLease, r) ==> r !in due && Wanted(q, ToLease, r)
  {
  }

  lemma WantedIsThere(q: Queue, row: Id)
    requires Wanted(q, ToLease, row)
    ensures row in q.rows
  {
  }

  lemma SweptAllUnfolds(q: Queue, byAvailability: seq<Id>, byLease: seq<Id>, locked: set<Id>, limit: nat)
    ensures SweptAll(q, byAvailability, byLease, locked, limit) ==
      SweptOnce(SweptOnce(SweptOnce(q, Legacy, byAvailability, locked, limit), Stale, byLease, locked, limit),
                Ineligible, byAvailability, locked, limit)
  {
  }
}
