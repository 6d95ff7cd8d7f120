/** Idempotency records under a per-key lock: interleaved transactions that look a key up,
    mutate, and store what they answered. */
module Idempotency {
  import opened Basics
  import opened StableJson

  /** The unique key of a record. Hashes are taken to be collision-free, so a key stands for
      its own hash and a canonical text for the request's. */
  datatype Slot = Slot(actor: Id, operation: string, key: string)

  datatype Call = Call(tenant: Id, slot: Slot, input: Json)

  type Response = map<string, string>

  datatype Record = Record(tenant: Id, requestHash: Option<string>, response: Response)

  datatype Reply = KeyRequired | Conflict | Aborted | UniqueViolation | Replayed(response: Response) | Answered(response: Response)

  datatype Phase = Waiting | Locked | Missing | Mutated(response: Response)

  datatype Transaction = Transaction(call: Call, phase: Phase)

  datatype Mutation = Mutation(tx: Id, call: Call, response: Response)

  datatype Outcome = Outcome(call: Call, reply: Reply)

  /** Committed records, the mutations committed so far, lock holders, transactions in flight
      and the answers given. */
  datatype World = World(records: map<Slot, Record>, log: seq<Mutation>, locks: map<Slot, Id>,
                         running: map<Id, Transaction>, outcomes: map<Id, Outcome>)

  predicate ValidKey(key: string) {
    8 <= |key| <= 200
  }

  /** The stored answer carries no one-time address. */
  function Stored(response: Response): Response {
    response - {"invitationUrl", "resetUrl"}
  }

  function AsReplay(response: Response): Response {
    response["replayed" := "true"]
  }

  predicate HasPrior(records: map<Slot, Record>, call: Call) {
    call.slot in records && records[call.slot].tenant == call.tenant
  }

  // ---------------------------------------------------------------------------
  // Steps
  // ---------------------------------------------------------------------------

  function Finish(w: World, tx: Id, reply: Reply): World
    requires tx in w.running
  {
    var call := w.running[tx].call;
    w.(running := w.running - {tx},
       locks := if call.slot in w.locks && w.locks[call.slot] == tx then w.locks - {call.slot} else w.locks,
       outcomes := w.outcomes[tx := Outcome(call, reply)])
  }

  function SetPhase(w: World, tx: Id, phase: Phase): World
    requires tx in w.running
  {
    w.(running := w.running[tx := w.running[tx].(phase := phase)])
  }

  datatype Step =
    | Start(tx: Id, call: Call)
    | Acquire(tx: Id)
    | Lookup(tx: Id)
    | Mutate(tx: Id, response: Response)
    | Commit(tx: Id)
    | Abort(tx: Id)

  function Enabled(w: World, step: Step): bool {
    match step
    case Start(tx, _) => tx !in w.running && tx !in w.outcomes
    case Acquire(tx) => tx in w.running && w.running[tx].phase.Waiting? && w.running[tx].call.slot !in w.locks
    case Lookup(tx) => tx in w.running && w.running[tx].phase.Locked?
    case Mutate(tx, _) => tx in w.running && w.running[tx].phase.Missing?
    case Commit(tx) => tx in w.running && w.running[tx].phase.Mutated?
    case Abort(tx) => tx in w.running
  }

  function CommitRecord(w: World, tx: Id, before: Order): World
    requires tx in w.running && w.running[tx].phase.Mutated?
  {
    var call, response := w.running[tx].call, w.running[tx].phase.response;
    if call.slot in w.records then Finish(w, tx, UniqueViolation)
    else
      Finish(w, tx, Answered(response)).(
        records := w.records[call.slot := Record(call.tenant, Stable(call.input, before), Stored(response))],
        log := w.log + [Mutation(tx, call, response)])
  }

  function LookupRecord(w: World, tx: Id, before: Order): World
    requires tx in w.running
  {
    var call := w.running[tx].call;
    if !HasPrior(w.records, call) then SetPhase(w, tx, Missing)
    else if w.records[call.slot].requestHash != Stable(call.input, before) then Finish(w, tx, Conflict)
    else Finish(w, tx, Replayed(AsReplay(w.records[call.slot].response)))
  }

  function Apply(w: World, step: Step, before: Order): World {
    if !Enabled(w, step) then w
    else
      match step
      case Start(tx, call) =>
        if !ValidKey(call.slot.key) then w.(outcomes := w.outcomes[tx := Outcome(call, KeyRequired)])
        else w.(running := w.running[tx := Transaction(call, Waiting)])
      case Acquire(tx) => SetPhase(w.(locks := w.locks[w.running[tx].call.slot := tx]), tx, Locked)
      case Lookup(tx) => LookupRecord(w, tx, before)
      case Mutate(tx, response) => SetPhase(w, tx, Mutated(response))
      case Commit(tx) => CommitRecord(w, tx, before)
      case Abort(tx) => Finish(w, tx, Aborted)
  }

  function Run(w: World, steps: seq<Step>, before: Order): World
    decreases |steps|
  {
    if steps == [] then w else Run(Apply(w, steps[0], before), steps[1..], before)
  }

  // ---------------------------------------------------------------------------
  // The invariant
  // ---------------------------------------------------------------------------

  ghost predicate RunningOk(w: World, tx: Id)
    requires tx in w.running
  {
    var t := w.running[tx];
    && ValidKey(t.call.slot.key) && tx !in w.outcomes
    && (!t.phase.Waiting? ==> t.call.slot in w.locks && w.locks[t.call.slot] == tx)
    && (t.phase.Missing? || t.phase.Mutated? ==> !HasPrior(w.records, t.call))
  }

  ghost predicate MutationOk(w: World, e: Mutation, before: Order) {
    && ValidKey(e.call.slot.key) && e.call.slot in w.records
    && w.records[e.call.slot] == Record(e.call.tenant, Stable(e.call.input, before), Stored(e.response))
  }

  ghost predicate OutcomeOk(w: World, tx: Id, o: Outcome, before: Order) {
    match o.reply
    case KeyRequired => !ValidKey(o.call.slot.key)
    case Aborted => true
    case UniqueViolation => o.call.slot in w.records && w.records[o.call.slot].tenant != o.call.tenant
    case Conflict => HasPrior(w.records, o.call) && w.records[o.call.slot].requestHash != Stable(o.call.input, before)
    case Replayed(r) =>
      && HasPrior(w.records, o.call) && w.records[o.call.slot].requestHash == Stable(o.call.input, before)
      && r == AsReplay(w.records[o.call.slot].response)
    case Answered(r) => Mutation(tx, o.call, r) in w.log
  }

  /** No two committed mutations share a key. */
  ghost predicate OncePerSlot(log: seq<Mutation>) {
    forall i, j :: 0 <= i < j < |log| ==> log[i].call.slot != log[j].call.slot
  }

  ghost predicate Inv(w: World, before: Order) {
    && (forall tx <- w.running :: RunningOk(w, tx))
    && (forall i :: 0 <= i < |w.log| ==> MutationOk(w, w.log[i], before))
    && (forall tx <- w.outcomes :: OutcomeOk(w, tx, w.outcomes[tx], before))
    && OncePerSlot(w.log)
  }

  /** Committed records and answers stay as they are. */
  ghost predicate Grows(w: World, w': World) {
    && (forall s <- w.records :: s in w'.records && w'.records[s] == w.records[s])
    && w.log <= w'.log
    && (forall tx <- w.outcomes :: tx in w'.outcomes && w'.outcomes[tx] == w.outcomes[tx])
  }

  lemma OldOutcomesStayOk(w: World, w': World, tx: Id, before: Order)
    requires Grows(w, w') && tx in w.outcomes && OutcomeOk(w, tx, w.outcomes[tx], before)
    ensures OutcomeOk(w', tx, w'.outcomes[tx], before)
  {
  }

  lemma OtherRunningStaysOk(w: World, w': World, tx: Id, other: Id)
    requires other in w.running && other in w'.running && w'.running[other] == w.running[other]
    requires RunningOk(w, other) && other != tx
    requires forall s <- w.locks :: w.locks[s] != tx ==> s in w'.locks && w'.locks[s] == w.locks[s]
    requires forall s <- w'.records :: s !in w.records ==> s in w.locks && w.locks[s] == tx
    requires forall s <- w.records :: s in w'.records && w'.records[s] == w.records[s]
    requires forall o <- w'.outcomes :: o !in w.outcomes ==> o == tx
    ensures RunningOk(w', other)
  {
  }

  /** What one step does: it moves one transaction, adds at most one record, and that under
      the lock. */
  ghost predicate Local(w: World, w': World, tx: Id, before: Order) {
    && Grows(w, w')
    && (forall other <- w'.running :: other != tx ==> other in w.running && w'.running[other] == w.running[other])
    && (tx in w'.running ==> RunningOk(w', tx))
    && (forall s <- w.locks :: w.locks[s] != tx ==> s in w'.locks && w'.locks[s] == w.locks[s])
    && (forall s <- w'.records :: s !in w.records ==> s in w.locks && w.locks[s] == tx)
    && (forall other <- w'.outcomes :: other !in w.outcomes ==>
          other == tx && OutcomeOk(w', tx, w'.outcomes[tx], before))
    && (w'.log == w.log || (|w'.log| == |w.log| + 1 && MutationOk(w', w'.log[|w.log|], before)
                            && w'.log[|w.log|].call.slot !in w.records))
  }

  lemma LocalKeepsInv(w: World, w': World, tx: Id, before: Order)
    requires Inv(w, before) && Local(w, w', tx, before)
    ensures Inv(w', before)
  {
    hide RunningOk, OutcomeOk, Stable;
    forall other | other in w'.running ensures RunningOk(w', other) {
      if other != tx { OtherRunningStaysOk(w, w', tx, other); }
    }
    forall i | 0 <= i < |w'.log| ensures MutationOk(w', w'.log[i], before) {
      if i < |w.log| { assert w'.log[i] == w.log[i] && MutationOk(w, w.log[i], before); }
    }
    forall other | other in w'.outcomes ensures OutcomeOk(w', other, w'.outcomes[other], before) {
      if other in w.outcomes { OldOutcomesStayOk(w, w', other, before); }
    }
    forall i, j | 0 <= i < j < |w'.log| ensures w'.log[i].call.slot != w'.log[j].call.slot {
      assert w'.log[i] == w.log[i] && MutationOk(w, w.log[i], before);
      if j < |w.log| { assert w'.log[j] == w.log[j]; }
    }
  }

  lemma StepIsLocal(w: World, step: Step, before: Order)
    requires Inv(w, before) && Enabled(w, step)
    ensures Local(w, Apply(w, step, before), step.tx, before)
  {
    hide Inv, RunningOk, CommitRecord, LookupRecord, Local;
    if step.tx in w.running {
      RunningFacts(w, step.tx, before);
    }
    match step
    case Commit(tx) => CommitIsLocal(w, tx, before);
    case Lookup(tx) => LookupIsLocal(w, tx, before);
    case Abort(tx) => AbortIsLocal(w, tx, before);
    case _ => AdvanceIsLocal(w, step, before);
  }

  lemma RunningFacts(w: World, tx: Id, before: Order)
    requires Inv(w, before) && tx in w.running
    ensures RunningOk(w, tx)
  {
  }

  lemma AdvanceIsLocal(w: World, step: Step, before: Order)
    requires Enabled(w, step) && (step.Start? || step.Acquire? || step.Mutate?)
    requires step.tx in w.running ==> RunningOk(w, step.tx)
    ensures Local(w, Apply(w, step, before), step.tx, before)
  {
    hide Stable, CommitRecord, LookupRecord, Finish;
  }

  lemma AbortIsLocal(w: World, tx: Id, before: Order)
    requires tx in w.running && RunningOk(w, tx)
    ensures Local(w, Finish(w, tx, Aborted), tx, before)
  {
  }

  lemma CommitIsLocal(w: World, tx: Id, before: Order)
    requires tx in w.running && RunningOk(w, tx) && w.running[tx].phase.Mutated?
    ensures Local(w, CommitRecord(w, tx, before), tx, before)
  {
    hide Stable, Stored;
  }

  lemma LookupIsLocal(w: World, tx: Id, before: Order)
    requires tx in w.running && RunningOk(w, tx) && w.running[tx].phase.Locked?
    ensures Local(w, LookupRecord(w, tx, before), tx, before)
  {
  }

  lemma {:induction false} RunKeepsInv(w: World, steps: seq<Step>, before: Order)
    requires Inv(w, before)
    ensures Inv(Run(w, steps, before), before)
    decreases |steps|
  {
    hide Inv, Apply, Enabled;
    if steps != [] {
      if Enabled(w, steps[0]) {
        StepIsLocal(w, steps[0], before);
        LocalKeepsInv(w, Apply(w, steps[0], before), steps[0].tx, before);
      } else {
        assert Apply(w, steps[0], before) == w by { RefusedStepIsIdle(w, steps[0], before); }
      }
      RunKeepsInv(Apply(w, steps[0], before), steps[1..], before);
    }
  }

  lemma RefusedStepIsIdle(w: World, step: Step, before: Order)
    requires !Enabled(w, step)
    ensures Apply(w, step, before) == w
  {
  }

  /** However transactions interleave, commit and roll back, each key mutates at most once. */
  lemma MutatesAtMostOnce(w: World, steps: seq<Step>, before: Order, i: nat, j: nat)
    requires Inv(w, before) && i < |Run(w, steps, before).log| && j < |Run(w, steps, before).log|
    requires Run(w, steps, before).log[i].call.slot == Run(w, steps, before).log[j].call.slot
    ensures i == j
  {
    hide Run, RunningOk, MutationOk, OutcomeOk;
    RunKeepsInv(w, steps, before);
  }

  /** Once a call has been answered, every other call on its key in the tenant that is not
      rolled back is replayed the same answer without its one-time addresses if its input is
      equal up to member order, and conflicts otherwise; it never mutates again. */
  lemma AnsweredCallsAreReplayed(w: World, steps: seq<Step>, before: Order, first: Id, second: Id)
    requires Inv(w, before) && TotalOrder(before)
    requires var o := Run(w, steps, before).outcomes;
             && first in o && second in o && first != second
             && o[first].reply.Answered? && o[second].call.slot == o[first].call.slot
             && o[second].call.tenant == o[first].call.tenant
             && Sound(o[first].call.input) && Sound(o[second].call.input)
             && !o[first].call.input.Undefined? && !o[second].call.input.Undefined?
    ensures var o := Run(w, steps, before).outcomes;
            || o[second].reply.Aborted?
            || o[second].reply == (if Same(o[second].call.input, o[first].call.input)
                                   then Replayed(AsReplay(Stored(o[first].reply.response))) else Conflict)
  {
    hide Run, RunningOk, Stable, Sound, Same, TotalOrder, Stored, AsReplay;
    RunKeepsInv(w, steps, before);
    var w' := Run(w, steps, before);
    var a, b := w'.outcomes[first], w'.outcomes[second];
    StableIsCanonical(b.call.input, a.call.input, before);
    assert OutcomeOk(w', first, a, before) && OutcomeOk(w', second, b, before);
    var i :| 0 <= i < |w'.log| && w'.log[i] == Mutation(first, a.call, a.reply.response);
    assert MutationOk(w', w'.log[i], before);
    if b.reply.Answered? {
      AnsweredOnce(w', before, first, second);
    }
  }

  lemma AnsweredOnce(w: World, before: Order, first: Id, second: Id)
    requires Inv(w, before) && first in w.outcomes && second in w.outcomes
    requires w.outcomes[first].reply.Answered? && w.outcomes[second].reply.Answered?
    requires w.outcomes[first].call.slot == w.outcomes[second].call.slot
    ensures first == second
  {
  }

  /** A replay is the first answer, less its one-time addresses, marked as a replay. */
  lemma ReplaysCarryNoAddress(response: Response, field: string)
    ensures "invitationUrl" !in AsReplay(Stored(response)) && "resetUrl" !in AsReplay(Stored(response))
    ensures field != "replayed" ==>
      (field in AsReplay(Stored(response)) <==> field in response && field !in {"invitationUrl", "resetUrl"})
    ensures field != "replayed" && field in AsReplay(Stored(response)) ==>
      AsReplay(Stored(response))[field] == response[field]
  {
  }

  /** A conflicting or replayed call changes no record and commits no mutation. */
  lemma OnlyAnswersChangeState(w: World, step: Step, before: Order)
    requires Inv(w, before)
    ensures var w' := Apply(w, step, before);
            (w'.records != w.records || w'.log != w.log) ==>
              step.Commit? && step.tx in w'.outcomes && w'.outcomes[step.tx].reply.Answered?
  {
    hide Stable, Stored, Inv;
  }

  // ---------------------------------------------------------------------------
  // One transaction from start to end
  // ---------------------------------------------------------------------------

  function Idle(records: map<Slot, Record>): World {
    World(records, [], map[], map[], map[])
  }

  /** The steps of a transaction that nobody interrupts. */
  function Uninterrupted(call: Call, result: Option<Response>): seq<Step> {
    [Start(0, call), Acquire(0), Lookup(0)] +
    match result
    case Some(r) => [Mutate(0, r), Commit(0)]
    case None => [Abort(0)]
  }

  lemma FirstSteps(records: map<Slot, Record>, call: Call, before: Order)
    requires ValidKey(call.slot.key)
    ensures var w := Apply(Apply(Idle(records), Start(0, call), before), Acquire(0), before);
            w == World(records, [], map[call.slot := 0], map[0 := Transaction(call, Locked)], map[])
  {
  }

  lemma RunUninterrupted(w: World, call: Call, result: Option<Response>, before: Order)
    ensures var w3 := Apply(Apply(Apply(w, Start(0, call), before), Acquire(0), before), Lookup(0), before);
            Run(w, Uninterrupted(call, result), before) ==
            if result.Some? then Apply(Apply(w3, Mutate(0, result.value), before), Commit(0), before)
            else Apply(w3, Abort(0), before)
  {
    hide Apply;
    var w1 := Apply(w, Start(0, call), before);
    var w2 := Apply(w1, Acquire(0), before);
    var w3 := Apply(w2, Lookup(0), before);
    var rest := if result.Some? then [Mutate(0, result.value), Commit(0)] else [Abort(0)];
    assert Uninterrupted(call, result) == [Start(0, call)] + ([Acquire(0)] + ([Lookup(0)] + rest));
    RunHead(w, Start(0, call), [Acquire(0)] + ([Lookup(0)] + rest), before);
    RunHead(w1, Acquire(0), [Lookup(0)] + rest, before);
    RunHead(w2, Lookup(0), rest, before);
    if result.Some? {
      assert rest == [Mutate(0, result.value)] + [Commit(0)];
      RunHead(w3, Mutate(0, result.value), [Commit(0)], before);
      RunHead(Apply(w3, Mutate(0, result.value), before), Commit(0), [], before);
      assert [Commit(0)] + [] == [Commit(0)];
    } else {
      RunHead(w3, Abort(0), [], before);
      assert [Abort(0)] + [] == rest;
    }
  }

  lemma RunHead(w: World, step: Step, rest: seq<Step>, before: Order)
    ensures Run(w, [step] + rest, before) == Run(Apply(w, step, before), rest, before)
  {
  }

  class Store {
    var records: map<Slot, Record>

    constructor (initial: map<Slot, Record>)
      ensures records == initial
    {
      records := initial;
    }

    /** The wrapper around a mutation; result is what the mutation returns, or None if it throws. */
    method Idempotent(call: Call, result: Option<Response>, before: Order) returns (reply: Reply)
      modifies this`records
      ensures var w := Run(Idle(old(records)), Uninterrupted(call, result), before);
              w.records == records && 0 in w.outcomes && w.outcomes[0] == Outcome(call, reply)
    {
      hide Stable, Run, Stored, AsReplay;
      RunUninterrupted(Idle(records), call, result, before);
      if |call.slot.key| < 8 || |call.slot.key| > 200 { return KeyRequired; }
      FirstSteps(records, call, before);
      var requestHash := Stable(call.input, before);
      if call.slot in records && records[call.slot].tenant == call.tenant {
        if records[call.slot].requestHash != requestHash { return Conflict; }
        return Replayed(AsReplay(records[call.slot].response));
      }
      if result.None? { return Aborted; }
      if call.slot in records { return UniqueViolation; }
      records := records[call.slot := Record(call.tenant, requestHash, Stored(result.value))];
      reply := Answered(result.value);
    }
  }
}
