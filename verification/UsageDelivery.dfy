/**
 * What becomes of a frozen usage request: when a failed delivery is retried, when its outbox row is
 * stranded, which requests can complete, and runs that meet these limits.
 */
module UsageDelivery {
  import opened Ids
  import opened Wrappers
  import opened TrafficStore
  import opened UsageLedger
  import opened UsageMachine

  // ---------------------------------------------------------------- what the server answers

  /** All that was credited for a connection by the steps of a run. */
  function CreditedBy(steps: seq<Step>, id: Id): Bytes {
    if steps == [] then NOTHING
    else
      var init, last := steps[..|steps| - 1], steps[|steps| - 1];
      CreditedBy(init, id).Plus(CreditOf(last, id))
  }

  /** The server's totals are the sums of the batches it has credited, each once. */
  lemma {:induction false} TotalsAreCredits(states: seq<State>, steps: seq<Step>, n: nat, id: Id)
    requires Run(states, steps) && Init(states[0]) && n <= |steps|
    ensures AmountIn(states[n].totals, id) == CreditedBy(steps[..n], id)
  {
    if n > 0 {
      TotalsAreCredits(states, steps, n - 1, id);
      assert Happens(states, steps, n - 1);
      TotalsAfter(states[n - 1], steps[n - 1]);
      TotalsAdd(states[n - 1].totals, steps[n - 1], states[n].totals, id);
      CreditedByMore(steps, n, id);
    }
  }

  function CreditOf(step: Step, id: Id): Bytes {
    if step.Apply? then AmountIn(step.delivery.payload, id) else NOTHING
  }

  lemma CreditedByMore(steps: seq<Step>, n: nat, id: Id)
    requires 0 < n <= |steps|
    ensures CreditedBy(steps[..n], id) == CreditedBy(steps[..n - 1], id).Plus(CreditOf(steps[n - 1], id))
  {
    assert steps[..n][..n - 1] == steps[..n - 1] && steps[..n][n - 1] == steps[n - 1];
  }

  lemma TotalsAdd(totals: Payload, step: Step, totals': Payload, id: Id)
    requires totals' == if step.Apply? then Credit(totals, step.delivery.payload) else totals
    ensures AmountIn(totals', id) == AmountIn(totals, id).Plus(CreditOf(step, id))
  {
    if step.Apply? { CreditAt(totals, step.delivery.payload, id); }
  }

  lemma TotalsAfter(s: State, step: Step)
    requires Enabled(s, step)
    ensures After(s, step).totals == if step.Apply? then Credit(s.totals, step.delivery.payload) else s.totals
  {
    if OutboxStep(step) {
      OutboxStepsCreditNothing(s, step);
    } else if step.Observe? || step.Prepare? || step.ListPrepared? || step.Leave? || step.Crash? || step.Acknowledge? {
      AgentStepsCreditNothing(s, step);
    }
  }

  lemma OutboxStepsCreditNothing(s: State, step: Step)
    requires Enabled(s, step) && OutboxStep(step)
    ensures After(s, step).totals == s.totals
  {
  }

  lemma AgentStepsCreditNothing(s: State, step: Step)
    requires Enabled(s, step) && (step.Observe? || step.Prepare? || step.ListPrepared? || step.Leave? || step.Crash? || step.Acknowledge?)
    ensures After(s, step).totals == s.totals
  {
  }

  lemma CreditAt(totals: Payload, p: Payload, id: Id)
    ensures AmountIn(Credit(totals, p), id) == AmountIn(totals, id).Plus(AmountIn(p, id))
  {
  }

  /** A fresh answer reports, for exactly the connections of its request, all that was credited for each up to then. */
  lemma FreshAnswersAreTotals(states: seq<State>, steps: seq<Step>, i: nat, r: Id)
    requires Run(states, steps) && Init(states[0]) && i < |steps| && steps[i] == Answer(r)
    ensures exists a: Payload :: && states[i + 1].acks == states[i].acks + {Delivery(r, a)} && states[i + 1].inbox == states[i].inbox[r := a]
              && r in states[i].credited && a.Keys == states[i].credited[r].Keys && forall id :: id in a ==> a[id] == CreditedBy(steps[..i], id)
  {
    assert Happens(states, steps, i);
    var s, a := states[i], AnswerOf(states[i], r);
    forall id | id in a ensures a[id] == CreditedBy(steps[..i], id) {
      TotalsAreCredits(states, steps, i, id);
    }
    assert states[i + 1] == s.(inbox := s.inbox[r := a], acks := s.acks + {Delivery(r, a)});
  }

  // ---------------------------------------------------------------- late failures

  /** A failure of the request is written after its retry time. */
  predicate IsLate(step: Step, r: Id) {
    step.Fail? && step.request == r && RETRY_MS <= step.elapsed
  }

  /** And the other flush holds the message, too. */
  predicate IsContested(s: State, step: Step, r: Id) {
    IsLate(step, r) && Holds(s.held, step.flush.Other(), r)
  }

  lemma FailureStep(s: State, step: Step, r: Id)
    requires Enabled(s, step)
    ensures r in After(s, step).late <==> r in s.late || IsLate(step, r)
    ensures r in After(s, step).contested <==> r in s.contested || IsContested(s, step, r)
  {
    var s' := After(s, step);
    if step.Fail? {
      assert s'.late == LateAfter(s.late, step.request, step.elapsed);
      assert s'.contested == ContestedAfter(s.contested, s.held, step.flush, step.request, step.elapsed);
    } else {
      assert s'.late == s.late && s'.contested == s.contested;
    }
  }

  /** The two histories of failures are what they are called. */
  lemma {:induction false} HistoryOfFailures(states: seq<State>, steps: seq<Step>, n: nat, r: Id)
    requires Run(states, steps) && Init(states[0]) && n <= |steps|
    ensures r in states[n].late <==> exists i :: 0 <= i < n && IsLate(steps[i], r)
    ensures r in states[n].contested <==> exists i :: 0 <= i < n && IsContested(states[i], steps[i], r)
  {
    if n > 0 {
      HistoryOfFailures(states, steps, n - 1, r);
      assert Happens(states, steps, n - 1);
      FailureStep(states[n - 1], steps[n - 1], r);
    }
  }

  /** The run does not clean up the outbox row of a request. */
  ghost predicate LeavesAlone(steps: seq<Step>, r: Id) {
    forall i :: 0 <= i < |steps| ==> steps[i] != CleanOutbox(r)
  }

  /** Finished, and out of everybody's hands. */
  ghost predicate Settled(s: State, r: Id) {
    r in s.outbox && !s.outbox[r].Live() && NobodyHolds(s.held, r)
  }

  /** Other steps change no row of the outbox; flushes let go of messages, or have them confirmed. */
  lemma OthersLetGo(s: State, step: Step)
    requires Enabled(s, step) && !OutboxStep(step)
    ensures After(s, step).outbox == s.outbox
    ensures if step.Acknowledge? then HoldsPayload(s.held, step.flush, step.ack.request) else After(s, step).settled == s.settled
    ensures forall h :: h in After(s, step).held ==> h in s.held && (After(s, step).held[h] == s.held[h] || After(s, step).held[h].Confirmed?)
    ensures step.Acknowledge? ==> After(s, step).settled == s.settled + {step.ack.request}
  {
    var s' := After(s, step);
    if step.Acknowledge? {
      assert s'.held == s.held[Hand(step.flush, step.ack.request) := Confirmed];
    } else if step.ListPrepared? || step.Leave? {
      assert s'.held == Without(s.held, step.flush);
    } else {
      assert s'.held == if step.Crash? then map[] else s.held;
    }
  }

  lemma SettledStep(s: State, step: Step, r: Id)
    requires Enabled(s, step) && step != CleanOutbox(r) && Settled(s, r)
    ensures Settled(After(s, step), r)
  {
    if !OutboxStep(step) {
      OthersLetGo(s, step);
    } else if step.request == r {
      SettledIsFinal(s, step, r);
    } else {
      OthersUntouched(s, step, r);
    }
  }

  lemma SettledIsFinal(s: State, step: Step, r: Id)
    requires Enabled(s, step) && OutboxStep(step) && step.request == r && step != CleanOutbox(r) && Settled(s, r)
    ensures Settled(After(s, step), r)
  {
  }

  /** Steps about another request leave a row and whoever holds its message alone. */
  lemma OthersUntouched(s: State, step: Step, r: Id)
    requires Enabled(s, step) && OutboxStep(step) && step.request != r
    ensures var s' := After(s, step);
            && s'.settled == s.settled && (r in s.outbox ==> r in s'.outbox && s'.outbox[r] == s.outbox[r])
            && forall h :: h in s'.held && h.request == r ==> h in s.held && s'.held[h] == s.held[h]
  {
    OneRowStep(s, step);
    OneHandStep(s, step);
  }

  lemma {:induction false} SettledStays(states: seq<State>, steps: seq<Step>, n: nat, r: Id)
    requires Run(states, steps) && LeavesAlone(steps, r) && n <= |steps| && Settled(states[0], r)
    ensures Settled(states[n], r)
  {
    if n > 0 {
      SettledStays(states, steps, n - 1, r);
      assert Happens(states, steps, n - 1) && steps[n - 1] != CleanOutbox(r);
      SettledStep(states[n - 1], steps[n - 1], r);
    }
  }

  /** Without a cleanup of its row, the request can still go out. */
  ghost predicate CanLease(s: State, r: Id) {
    exists states, steps :: Run(states, steps) && states[0] == s && LeavesAlone(steps, r) && Enabled(states[|steps|], Lease(Sync, r))
  }

  /** Still frozen, but its row is live without the payload: no delivery can be read from it. */
  ghost predicate Stranded(s: State, r: Id) {
    r in Requests(s.table) && r in s.outbox && s.outbox[r].Live() && s.outbox[r].payload.None?
  }

  /** Without a cleanup of its row, the request can get stranded. */
  ghost predicate CanStrand(s: State, r: Id) {
    exists states, steps :: Run(states, steps) && states[0] == s && LeavesAlone(steps, r) && Stranded(states[|steps|], r)
  }

  /**
   * After a failed delivery the request can be leased again exactly if the retry time had not passed before
   * `MarkFailed` wrote the row, or the other flush still holds the message and may revive it by its own failure.
   * Otherwise only the cleanup of the failed row brings it back.
   */
  lemma RetriesIff(s: State, f: Flush, request: Id, elapsed: nat)
    requires Enabled(s, Fail(f, request, elapsed)) && request in s.outbox
    ensures CanLease(After(s, Fail(f, request, elapsed)), request) <==> elapsed < RETRY_MS || Holds(s.held, f.Other(), request)
  {
    var failed := After(s, Fail(f, request, elapsed));
    if elapsed < RETRY_MS {
      assert Run([failed], []) && LeavesAlone([], request);
    } else if Holds(s.held, f.Other(), request) {
      var revived := After(failed, Fail(f.Other(), request, 0));
      assert Run([failed, revived], [Fail(f.Other(), request, 0)]) && LeavesAlone([Fail(f.Other(), request, 0)], request);
    } else {
      LastHolder(s.held, f, request);
      NeverAgain(failed, request);
    }
  }

  /** After a late failure of a frozen request, its row can become live without payload exactly if the other flush holds it. */
  lemma StrandsIff(s: State, f: Flush, request: Id, elapsed: nat)
    requires Enabled(s, Fail(f, request, elapsed)) && RETRY_MS <= elapsed
    requires request in Requests(s.table) && request in s.outbox
    ensures CanStrand(After(s, Fail(f, request, elapsed)), request) <==> Holds(s.held, f.Other(), request)
  {
    var failed := After(s, Fail(f, request, elapsed));
    if Holds(s.held, f.Other(), request) {
      RedactedAndRevived(failed, f.Other(), request);
    } else {
      LastHolder(s.held, f, request);
      NeverAgain(failed, request);
    }
  }

  lemma RedactedAndRevived(s: State, f: Flush, r: Id)
    requires r in Requests(s.table) && r in s.outbox && !s.outbox[r].Live() && Holds(s.held, f, r)
    ensures CanStrand(s, r)
  {
    var redacted := After(s, Redact(r));
    var revived := After(redacted, Fail(f, r, 0));
    var states, steps := [s, redacted, revived], [Redact(r), Fail(f, r, 0)];
    assert Run(states, steps) && LeavesAlone(steps, r) && Stranded(states[|steps|], r);
  }

  lemma NeverAgain(s: State, r: Id)
    requires Settled(s, r)
    ensures !CanLease(s, r) && !CanStrand(s, r)
  {
    forall states: seq<State>, steps | Run(states, steps) && states[0] == s && LeavesAlone(steps, r)
      ensures !Enabled(states[|steps|], Lease(Sync, r)) && !Stranded(states[|steps|], r)
    {
      SettledStays(states, steps, |steps|, r);
    }
  }

  // ---------------------------------------------------------------- which frozen requests can complete

  /** The request has left the agent's table and is credited on the server. */
  ghost predicate Complete(s: State, r: Id) {
    Frozen(s.table, r) == {} && r in s.credited
  }

  /** No failure of the request is written late. */
  predicate Punctual(step: Step, r: Id) {
    !IsLate(step, r)
  }

  ghost predicate AllPunctual(steps: seq<Step>, r: Id) {
    forall i :: 0 <= i < |steps| ==> Punctual(steps[i], r)
  }

  ghost predicate Completes(states: seq<State>, steps: seq<Step>, s: State, r: Id) {
    Run(states, steps) && states[0] == s && Complete(states[|steps|], r)
  }

  ghost predicate CanComplete(s: State, r: Id) {
    exists states, steps :: Completes(states, steps, s, r)
  }

  ghost predicate CanCompleteInTime(s: State, r: Id) {
    exists states, steps :: Completes(states, steps, s, r) && AllPunctual(steps, r)
  }

  lemma RunPrepends(s: State, step: Step, states: seq<State>, steps: seq<Step>)
    requires Run(states, steps) && Enabled(s, step) && states[0] == After(s, step)
    ensures Run([s] + states, [step] + steps)
  {
    var states', steps' := [s] + states, [step] + steps;
    forall i | 0 <= i < |steps'| ensures Happens(states', steps', i) {
      if i > 0 { assert Happens(states, steps, i - 1); }
    }
  }

  lemma StartsEarlier(s: State, step: Step, states: seq<State>, steps: seq<Step>, r: Id)
    requires Enabled(s, step) && Completes(states, steps, After(s, step), r)
    ensures Completes([s] + states, [step] + steps, s, r)
    ensures AllPunctual(steps, r) && Punctual(step, r) ==> AllPunctual([step] + steps, r)
  {
    RunPrepends(s, step, states, steps);
    var states', steps' := [s] + states, [step] + steps;
    assert states'[|steps'|] == states[|steps|];
  }

  lemma Before(s: State, step: Step, r: Id)
    requires Enabled(s, step)
    ensures CanComplete(After(s, step), r) ==> CanComplete(s, r)
    ensures CanCompleteInTime(After(s, step), r) && Punctual(step, r) ==> CanCompleteInTime(s, r)
  {
    if CanComplete(After(s, step), r) {
      var states, steps :| Completes(states, steps, After(s, step), r);
      StartsEarlier(s, step, states, steps, r);
    }
    if CanCompleteInTime(After(s, step), r) && Punctual(step, r) {
      var states, steps :| Completes(states, steps, After(s, step), r) && AllPunctual(steps, r);
      StartsEarlier(s, step, states, steps, r);
    }
  }

  lemma CompleteNow(s: State, r: Id)
    requires Complete(s, r)
    ensures CanCompleteInTime(s, r)
  {
    assert Completes([s], [], s, r) && AllPunctual([], r);
  }

  lemma AnsweredCompletes(s: State, f: Flush, ack: Delivery)
    requires Inv(s) && ack in s.acks && HoldsPayload(s.held, f, ack.request)
    ensures CanCompleteInTime(s, ack.request)
  {
    AnswersFit(s, ack.request, ack.payload);
    AcknowledgeTwice(s.table, ack.request, ack.payload);
    var s' := After(s, Acknowledge(f, ack));
    assert Fair(s.totals, s.credited, ack.request, ack.payload);
    CompleteNow(s', ack.request);
    Before(s, Acknowledge(f, ack), ack.request);
  }

  lemma CreditedCompletes(s: State, f: Flush, r: Id)
    requires Inv(s) && r in s.credited && HoldsPayload(s.held, f, r)
    ensures CanCompleteInTime(s, r)
  {
    StepKeepsInv(s, Answer(r));
    AnsweredCompletes(After(s, Answer(r)), f, Delivery(r, AnswerOf(s, r)));
    Before(s, Answer(r), r);
  }

  lemma SentCompletes(s: State, f: Flush, d: Delivery)
    requires Inv(s) && d in s.sent && HoldsPayload(s.held, f, d.request) && Fits(d.payload) && d.payload.Keys <= s.owned
    ensures CanCompleteInTime(s, d.request)
  {
    if d.request in s.credited {
      CreditedCompletes(s, f, d.request);
    } else {
      StepKeepsInv(s, Apply(d));
      CreditedCompletes(After(s, Apply(d)), f, d.request);
      Before(s, Apply(d), d.request);
    }
  }

  /** The server can take the batch, as far as its connections are known to it by now. */
  ghost predicate Deliverable(s: State, r: Id) {
    r in s.issued && Fits(s.issued[r]) && s.issued[r].Keys <= s.owned
  }

  lemma HeldCompletes(s: State, f: Flush, r: Id)
    requires Inv(s) && Deliverable(s, r) && HoldsPayload(s.held, f, r)
    ensures CanCompleteInTime(s, r)
  {
    assert s.held[Hand(f, r)].payload.value == s.issued[r];
    StepKeepsInv(s, Send(f, r));
    SentCompletes(After(s, Send(f, r)), f, Delivery(r, s.issued[r]));
    Before(s, Send(f, r), r);
  }

  lemma PendingCompletes(s: State, r: Id)
    requires Inv(s) && Deliverable(s, r) && r in s.outbox && s.outbox[r] == Message(Pending, Some(s.issued[r]))
    ensures CanCompleteInTime(s, r)
  {
    StepKeepsInv(s, Lease(Sync, r));
    HeldCompletes(After(s, Lease(Sync, r)), Sync, r);
    Before(s, Lease(Sync, r), r);
  }

  lemma LiveCompletes(s: State, r: Id)
    requires Inv(s) && Deliverable(s, r) && r in s.outbox && s.outbox[r].Live() && s.outbox[r].payload.Some?
    ensures CanCompleteInTime(s, r)
  {
    assert MessageOk(s.issued, s.settled, s.late, s.contested, s.held, r, s.outbox[r]);
    if s.outbox[r].status.Pending? {
      PendingCompletes(s, r);
    } else {
      StepKeepsInv(s, Requeue(r));
      PendingCompletes(After(s, Requeue(r)), r);
      Before(s, Requeue(r), r);
    }
  }

  lemma AbsentCompletes(s: State, r: Id)
    requires Inv(s) && Deliverable(s, r) && r in Requests(s.table) && r !in s.outbox
    ensures CanCompleteInTime(s, r)
  {
    var s1 := After(s, ListPrepared(Sync));
    RequestsAreIssued(s, r);
    assert Hand(Sync, r) in ListedBy(Sync, s.table) && s1.listed[Hand(Sync, r)] == s.issued[r];
    StepKeepsInv(s, ListPrepared(Sync));
    StepKeepsInv(s1, Enqueue(Sync, r));
    PendingCompletes(After(s1, Enqueue(Sync, r)), r);
    Before(s1, Enqueue(Sync, r), r);
    Before(s, ListPrepared(Sync), r);
  }

  lemma TerminalCompletes(s: State, r: Id)
    requires Inv(s) && Deliverable(s, r) && r in Requests(s.table) && r in s.outbox && !s.outbox[r].Live()
    ensures CanCompleteInTime(s, r)
  {
    StepKeepsInv(s, CleanOutbox(r));
    AbsentCompletes(After(s, CleanOutbox(r)), r);
    Before(s, CleanOutbox(r), r);
  }

  /** A stranded row that a flush takes in hand and fails late is cleaned up in the end. */
  lemma StrandedPendingCompletes(s: State, r: Id)
    requires Inv(s) && Deliverable(s, r) && Stranded(s, r) && s.outbox[r].status.Pending?
    ensures CanComplete(s, r)
  {
    StepKeepsInv(s, Lease(Sync, r));
    HeldEmptyCompletes(After(s, Lease(Sync, r)), Sync, r);
    Before(s, Lease(Sync, r), r);
  }

  lemma FailedLate(s: State, f: Flush, r: Id)
    requires Holds(s.held, f, r) && r in s.outbox
    ensures var s' := After(s, Fail(f, r, RETRY_MS));
            && r in s'.outbox && s'.outbox[r].status.Failed? && s'.table == s.table && s'.issued == s.issued && s'.owned == s.owned
  {
  }

  lemma HeldEmptyCompletes(s: State, f: Flush, r: Id)
    requires Inv(s) && Deliverable(s, r) && r in Requests(s.table) && r in s.outbox && Holds(s.held, f, r)
    ensures CanComplete(s, r)
  {
    StepKeepsInv(s, Fail(f, r, RETRY_MS));
    FailedLate(s, f, r);
    TerminalCompletes(After(s, Fail(f, r, RETRY_MS)), r);
    Before(s, Fail(f, r, RETRY_MS), r);
  }

  lemma StrandedCompletes(s: State, r: Id)
    requires Inv(s) && Deliverable(s, r) && Stranded(s, r)
    ensures CanComplete(s, r)
  {
    if s.outbox[r].status.Pending? {
      StrandedPendingCompletes(s, r);
    } else {
      StepKeepsInv(s, Requeue(r));
      StrandedPendingCompletes(After(s, Requeue(r)), r);
      Before(s, Requeue(r), r);
    }
  }

  /** Nobody can deliver a stranded request any more. */
  ghost predicate Lost(s: State, r: Id) {
    Stranded(s, r) && NobodyDelivers(s.held, r)
  }

  lemma DeliverableCompletes(s: State, r: Id)
    requires Inv(s) && Deliverable(s, r) && r in Requests(s.table)
    ensures CanComplete(s, r) && (Lost(s, r) || CanCompleteInTime(s, r))
  {
    if r !in s.outbox {
      AbsentCompletes(s, r);
    } else if !s.outbox[r].Live() {
      TerminalCompletes(s, r);
    } else if s.outbox[r].payload.Some? {
      LiveCompletes(s, r);
    } else {
      StrandedCompletes(s, r);
      if !Lost(s, r) { StillHeldCompletes(s, r); }
    }
  }

  lemma StillHeldCompletes(s: State, r: Id)
    requires Inv(s) && Deliverable(s, r) && !NobodyDelivers(s.held, r)
    ensures CanCompleteInTime(s, r)
  {
    var h :| h in s.held && h.request == r && s.held[h].Leased? && s.held[h].payload.Some?;
    assert h == Hand(h.flush, r);
    HeldCompletes(s, h.flush, r);
  }

  /** The server can take the batch once it knows all of its connections. */
  ghost predicate Receivable(s: State, r: Id) {
    r in s.issued && Fits(s.issued[r]) && s.issued[r].Keys !! s.foreign
  }

  lemma {:induction false} ReceivableCompletes(s: State, r: Id)
    requires Inv(s) && Receivable(s, r) && r in Requests(s.table)
    ensures CanComplete(s, r) && (Lost(s, r) || CanCompleteInTime(s, r))
    decreases s.issued[r].Keys - s.owned
  {
    if s.issued[r].Keys <= s.owned {
      DeliverableCompletes(s, r);
    } else {
      var id :| id in s.issued[r] && id !in s.owned;
      StepKeepsInv(s, Own(id));
      ReceivableCompletes(After(s, Own(id)), r);
      Before(s, Own(id), r);
    }
  }

  /** What was issued stays issued, and the connections of other nodes stay theirs. */
  lemma {:induction false} IssuedIsFixed(states: seq<State>, steps: seq<Step>, n: nat, r: Id)
    requires Run(states, steps) && n <= |steps| && r in states[0].issued
    ensures r in states[n].issued && states[n].issued[r] == states[0].issued[r] && states[n].foreign == states[0].foreign
  {
    if n > 0 {
      IssuedIsFixed(states, steps, n - 1, r);
      assert Happens(states, steps, n - 1);
    }
  }

  /** Whatever happens, a batch that the server cannot accept is never credited and stays frozen as it is. */
  lemma UnreceivableStays(states: seq<State>, steps: seq<Step>, r: Id)
    requires Run(states, steps) && Inv(states[0]) && r in states[0].issued && r !in states[0].settled && !Receivable(states[0], r)
    ensures var s' := states[|steps|];
            r !in s'.credited && r in Requests(s'.table) && FrozenPayload(s'.table, r) == states[0].issued[r]
  {
    RunKeepsInv(states, steps, |steps|);
    IssuedIsFixed(states, steps, |steps|, r);
    var s' := states[|steps|];
    assert r !in s'.credited;
    FrozenIsIssued(s'.table, s'.issued, s'.settled, r);
  }

  /**
   * From every reachable state, whatever was lost, overtaken or written late before, a frozen batch has a run
   * that completes it exactly if the server can accept it: both directions of each record add up within a signed
   * 64-bit integer and no connection is of another node. Any other batch keeps its connections frozen for ever.
   */
  lemma FrozenRequestCompletesIff(s: State, request: Id)
    requires Reachable(s) && request in Requests(s.table)
    ensures CanComplete(s, request) <==> Fits(FrozenPayload(s.table, request)) && Frozen(s.table, request) !! s.foreign
    ensures !CanComplete(s, request) ==>
              forall states: seq<State>, steps :: Run(states, steps) && states[0] == s ==>
                FrozenPayload(states[|steps|].table, request) == FrozenPayload(s.table, request)
  {
    ReachableInv(s);
    RequestsAreIssued(s, request);
    if Receivable(s, request) {
      ReceivableCompletes(s, request);
    } else {
      forall states: seq<State>, steps | Run(states, steps) && states[0] == s
        ensures request !in states[|steps|].credited && FrozenPayload(states[|steps|].table, request) == s.issued[request]
      {
        UnreceivableStays(states, steps, request);
      }
    }
  }

  // ---------------------------------------------------------------- lost requests

  /** A live row without payload that no flush can deliver. */
  ghost predicate Empty(outbox: map<Id, Message>, held: map<Hand, Hold>, r: Id) {
    r in outbox && outbox[r].Live() && outbox[r].payload.None? && NobodyDelivers(held, r)
  }

  lemma EmptyStep(s: State, step: Step, r: Id)
    requires HeldOk(s.issued, s.settled, s.held) && Enabled(s, step) && Punctual(step, r) && Empty(s.outbox, s.held, r) && r !in s.settled
    ensures r !in After(s, step).settled && Empty(After(s, step).outbox, After(s, step).held, r)
  {
    if !OutboxStep(step) {
      OthersLetGo(s, step);
    } else if step.request == r {
      EmptyIsKept(s, step, r);
    } else {
      OthersUntouched(s, step, r);
    }
  }

  lemma EmptyIsKept(s: State, step: Step, r: Id)
    requires HeldOk(s.issued, s.settled, s.held) && Enabled(s, step) && OutboxStep(step) && step.request == r && Punctual(step, r)
    requires Empty(s.outbox, s.held, r) && r !in s.settled
    ensures r !in After(s, step).settled && Empty(After(s, step).outbox, After(s, step).held, r)
  {
  }

  ghost predicate HandsOk(s: State) {
    HeldOk(s.issued, s.settled, s.held)
  }

  lemma HandsStayOk(states: seq<State>, steps: seq<Step>)
    requires Run(states, steps) && Inv(states[0])
    ensures forall k :: 0 <= k < |states| ==> HandsOk(states[k])
  {
    forall k | 0 <= k < |states| ensures HandsOk(states[k]) { RunKeepsInv(states, steps, k); }
  }

  lemma EmptyNext(states: seq<State>, steps: seq<Step>, i: nat, r: Id)
    requires Happens(states, steps, i) && HandsOk(states[i]) && Punctual(steps[i], r)
    requires r !in states[i].settled && Empty(states[i].outbox, states[i].held, r)
    ensures r !in states[i + 1].settled && Empty(states[i + 1].outbox, states[i + 1].held, r)
  {
    EmptyStep(states[i], steps[i], r);
  }

  lemma {:induction false} EmptyStays(states: seq<State>, steps: seq<Step>, n: nat, r: Id)
    requires Run(states, steps) && n <= |steps| && AllPunctual(steps, r) && forall k :: 0 <= k < |states| ==> HandsOk(states[k])
    requires Empty(states[0].outbox, states[0].held, r) && r !in states[0].settled
    ensures r !in states[n].settled && Empty(states[n].outbox, states[n].held, r)
  {
    if n > 0 {
      EmptyStays(states, steps, n - 1, r);
      assert Punctual(steps[n - 1], r) && HandsOk(states[n - 1]);
      EmptyNext(states, steps, n - 1, r);
    }
  }

  /** Nothing but a late failure frees a lost request: until then its connections stay frozen with what they were. */
  lemma LostStays(states: seq<State>, steps: seq<Step>, r: Id)
    requires Run(states, steps) && Inv(states[0]) && Lost(states[0], r) && AllPunctual(steps, r)
    ensures Lost(states[|steps|], r) && FrozenPayload(states[|steps|].table, r) == FrozenPayload(states[0].table, r)
  {
    RequestsAreIssued(states[0], r);
    HandsStayOk(states, steps);
    EmptyStays(states, steps, |steps|, r);
    RunKeepsInv(states, steps, |steps|);
    IssuedIsFixed(states, steps, |steps|, r);
    FrozenIsIssued(states[|steps|].table, states[|steps|].issued, states[|steps|].settled, r);
  }

  /**
   * Without a late failure of it, a frozen batch that the server can accept completes exactly if it is not
   * lost: its row is live without payload, and no flush holds the message with its payload.
   */
  lemma CompletesInTimeIff(s: State, request: Id)
    requires Reachable(s) && request in Requests(s.table)
    requires Fits(FrozenPayload(s.table, request)) && Frozen(s.table, request) !! s.foreign
    ensures CanCompleteInTime(s, request) <==> !Lost(s, request)
  {
    ReachableInv(s);
    RequestsAreIssued(s, request);
    ReceivableCompletes(s, request);
    if Lost(s, request) {
      forall states: seq<State>, steps | Completes(states, steps, s, request) ensures !AllPunctual(steps, request) {
        if AllPunctual(steps, request) {
          LostStays(states, steps, request);
          FrozenRow(states[|steps|].table, request);
        }
      }
    }
  }

  lemma FrozenRow(t: Table, r: Id)
    requires r in Requests(t)
    ensures Frozen(t, r) != {}
  {
    var id :| id in t && t[id].request == Some(r);
    assert id in Frozen(t, r);
  }

  // ---------------------------------------------------------------- runs that meet the limits

  /** One connection is observed and frozen. */
  lemma OneFrozen(bytes: Bytes) returns (s: State)
    requires 0 < bytes.rx <= MAX_INT64 && 0 <= bytes.tx <= MAX_INT64
    ensures Reachable(s) && s.owned == {"a"} && s.foreign == {} && s.outbox == map[] && s.held == map[] && "r" in Requests(s.table)
    ensures FrozenPayload(s.table, "r") == map["a" := bytes] && s.listed == map[Hand(Sync, "r") := map["a" := bytes]]
  {
    var records := [Record("a", bytes)];
    var s0 := Initial({"a"}, {});
    assert records[..|records| - 1] == [];
    assert ObserveAll(s0.table, records) == ObserveRecord(s0.table, records[0]);
    var s1 := After(s0, Observe(records));
    assert s1.table == map["a" := Row(bytes, NOTHING, bytes, NOTHING, None)];
    LeadsNowhere(s0);
    LeadsFurther(s0, s0, Observe(records));
    assert FirstEligible(s1.table, USAGE_RECORDS_PER_MESSAGE, ["a"]);
    LeadsFurther(s0, s1, Prepare(Sync, "r", ["a"]));
    s := After(s1, Prepare(Sync, "r", ["a"]));
    assert s.table["a"].request == Some("r") && Frozen(s.table, "r") == {"a"};
    assert Init(s0);
  }

  lemma ReachesFurther(s: State, step: Step)
    requires Reachable(s) && Enabled(s, step)
    ensures Reachable(After(s, step))
  {
    var start :| Init(start) && Leads(start, s);
    LeadsFurther(start, s, step);
  }

  /** A batch that never completes is reachable: two directions that add up to more than 64 bits can hold. */
  lemma StuckBatch() returns (s: State)
    ensures Reachable(s) && "r" in Requests(s.table) && !CanComplete(s, "r")
  {
    s := OneFrozen(Bytes(MAX_INT64, 1));
    assert "a" in FrozenPayload(s.table, "r") && !Fits(FrozenPayload(s.table, "r"));
    FrozenRequestCompletesIff(s, "r");
  }

  /** The row of a frozen request is in flight, and the first flush holds it. */
  lemma OneLeased() returns (s: State)
    ensures Reachable(s) && "r" in Requests(s.table) && s.outbox == map["r" := Message(InFlight, Some(FrozenPayload(s.table, "r")))]
    ensures s.held == map[Hand(Sync, "r") := Leased(Some(FrozenPayload(s.table, "r")))]
  {
    var s0 := OneFrozen(Bytes(1, 0));
    ReachesFurther(s0, Enqueue(Sync, "r"));
    var s1 := After(s0, Enqueue(Sync, "r"));
    assert s1 == s0.(outbox := map["r" := Message(Pending, Some(FrozenPayload(s0.table, "r")))]);
    ReachesFurther(s1, Lease(Sync, "r"));
    s := After(s1, Lease(Sync, "r"));
  }

  /** Both flushes hold the same message: the first one's lease ended while it was still at work. */
  lemma HeldTwice() returns (s: State)
    ensures Reachable(s) && "r" in Requests(s.table) && "r" in s.outbox
    ensures s.held == map[Hand(Sync, "r") := Leased(Some(FrozenPayload(s.table, "r"))), Hand(Telemetry, "r") := Leased(Some(FrozenPayload(s.table, "r")))]
  {
    var s0 := OneLeased();
    ReachesFurther(s0, Requeue("r"));
    var s1 := After(s0, Requeue("r"));
    assert s1 == s0.(outbox := map["r" := Message(Pending, Some(FrozenPayload(s0.table, "r")))]);
    ReachesFurther(s1, Lease(Telemetry, "r"));
    s := After(s1, Lease(Telemetry, "r"));
  }

  /** One of them fails it late, and its row is redacted. */
  lemma FailedAndRedacted() returns (s: State)
    ensures Reachable(s) && "r" in Requests(s.table) && "r" in s.outbox && s.outbox["r"] == Message(Failed, None)
    ensures s.held.Keys == {Hand(Telemetry, "r")} && HoldsPayload(s.held, Telemetry, "r")
  {
    var s0 := HeldTwice();
    ReachesFurther(s0, Fail(Sync, "r", RETRY_MS));
    var s1 := After(s0, Fail(Sync, "r", RETRY_MS));
    assert s1.outbox["r"].status.Failed? && s1.held == map[Hand(Telemetry, "r") := s0.held[Hand(Telemetry, "r")]];
    ReachesFurther(s1, Redact("r"));
    s := After(s1, Redact("r"));
  }

  /** A lost request is reachable: a late failure, the redaction of the failed row, and the other flush's failure. */
  lemma LostRequest() returns (s: State)
    ensures Reachable(s) && Lost(s, "r")
  {
    var s0 := FailedAndRedacted();
    ReachesFurther(s0, Fail(Telemetry, "r", 0));
    s := After(s0, Fail(Telemetry, "r", 0));
    assert s.held == map[];
  }

  /** A late failure that nobody overtakes is reachable: the request waits for the cleanup of its row. */
  lemma WaitsForCleanup() returns (s: State)
    ensures Reachable(s) && "r" in Requests(s.table) && !CanLease(s, "r")
  {
    var s0 := OneLeased();
    ReachesFurther(s0, Fail(Sync, "r", RETRY_MS));
    RetriesIff(s0, Sync, "r", RETRY_MS);
    s := After(s0, Fail(Sync, "r", RETRY_MS));
  }
}
