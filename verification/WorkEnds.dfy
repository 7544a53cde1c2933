/**
 * How the operations of the work chain end: what a reported end means, and exactly which ends are not
 * reported.
 */
module WorkEnds {
  import opened Ids
  import opened Wrappers
  import opened AwgInstall
  import opened WorkChain
  import Queue = MessageQueue

  // ---------------------------------------------------------------- what a completion records

  /** Besides one message and a new one, nothing in the outbox changes. */
  ghost predicate ChangesRows(rows: Jobs, rows': Jobs, m: Id, added: set<Id>) {
    && rows'.Keys == rows.Keys + added && m in rows && m in rows'
    && forall q :: q in rows && q != m ==> rows'[q] == rows[q]
  }

  /**
   * An executed step that leads on is applied, and its successor is available exactly when the wait that the outcome asked
   * for has passed since the handler's end; it expires five minutes after the deadline. Only a change of step is an event.
   */
  lemma SuccessorIsRecorded(s: State, id: Id, end: int, now: int)
    requires BusyOk(s.rows, s.busy, s.hand, s.log) && s.rows.Keys <= s.past.used && Enabled(s, Complete(id, end, now, false))
    requires var b := s.busy.value; Execute(b.job.step, b.job.state, b.now, b.oracle).Next?
    ensures var s', b := After(s, Complete(id, end, now, false)), s.busy.value;
            var n := Execute(b.job.step, b.job.state, b.now, b.oracle);
            && ChangesRows(s.rows, s'.rows, b.m, {id}) && s'.rows[b.m] == b.job.(status := Queue.Applied)
            && s'.rows[id].op == b.job.op && s'.rows[id].step == n.step && s'.rows[id].state == n.state && s'.rows[id].status == Queue.Pending
            && s'.rows[id].available == end + n.wait && s'.rows[id].expires == n.state.deadline + 300_000
            && s'.told == s.told + (if n.step == b.job.step then [] else [Event(b.m, b.job.op, StepApplied)])
            && s'.events == s.events + (if n.step == b.job.step then [] else [Event(b.m, b.job.op, StepApplied)])
  {
    assert id !in s.rows;
  }

  /** One that ends the installation has no successor, and says how it ended. */
  lemma EndIsRecorded(s: State, id: Id, end: int, now: int)
    requires BusyOk(s.rows, s.busy, s.hand, s.log) && Enabled(s, Complete(id, end, now, false))
    requires var b := s.busy.value; !Execute(b.job.step, b.job.state, b.now, b.oracle).Next?
    ensures var s', b := After(s, Complete(id, end, now, false)), s.busy.value;
            var done := Execute(b.job.step, b.job.state, b.now, b.oracle).Done?;
            && ChangesRows(s.rows, s'.rows, b.m, {}) && s'.rows[b.m].status == (if done then Queue.Applied else Queue.Failed)
            && s'.told == s.told + [Event(b.m, b.job.op, if done then InstallDone else StepFailed)]
            && s'.events == s.events + [Event(b.m, b.job.op, if done then InstallDone else StepFailed)]
  {
  }

  /** An interrupted one, and one whose completion was refused, is tried again ten seconds after its end, unless that has passed. */
  lemma RetryIsRecorded(s: State, step: WorkChain.Step)
    requires BusyOk(s.rows, s.busy, s.hand, s.log) && Enabled(s, step) && (step.Retry? || (step.Complete? && step.interrupted))
    ensures var s', b := After(s, step), s.busy.value;
            && ChangesRows(s.rows, s'.rows, b.m, {}) && s'.told == s.told && s'.events == s.events
            && s'.rows[b.m] == b.job.(status := if step.now < step.end + 10_000 then Queue.Pending else Queue.Failed, available := step.end + 10_000)
  {
  }

  /** A new operation begins with its first step, available at once; a leased message is in flight for thirty seconds. */
  lemma BeginningIsRecorded(s: State, op: Id, state: Install, id: Id, now: int)
    requires Inv(s) && Enabled(s, Start(op, state, id, now))
    ensures var s' := After(s, Start(op, state, id, now));
            && s'.rows == s.rows[id := Job(op, Prepare, state, Queue.Pending, now, state.deadline + 300_000)] && s'.told == s.told
            && id !in s.rows && s'.past.current == s.past.current[op := id]
  {
  }

  lemma LeaseIsRecorded(s: State, m: Id, now: int)
    requires Inv(s) && Enabled(s, Take(m, now))
    ensures var s' := After(s, Take(m, now));
            ChangesRows(s.rows, s'.rows, m, {}) && s'.rows[m] == s.rows[m].(status := Queue.InFlight, available := now + 30_000) && s'.hand == s.hand[m := now]
  {
  }

  // ---------------------------------------------------------------- what a reported end means

  /** An operation was reported done: it has no live message, and its last execution was the one that finished it. */
  ghost predicate DoneOk(s: State, op: Id) {
    op in s.past.started && op !in s.past.current && op in s.log && s.log[op] != [] && s.log[op][|s.log[op]| - 1].step == Finish
  }

  ghost predicate AllDoneOk(s: State) {
    forall e :: e in s.told && e.kind.InstallDone? ==> DoneOk(s, e.op)
  }

  /** A finished operation is left alone by everything. */
  lemma DoneStays(s: State, step: WorkChain.Step, op: Id)
    requires OneLive(s.rows, s.past) && HandOk(s.rows, s.hand, s.log) && BusyOk(s.rows, s.busy, s.hand, s.log)
    requires Enabled(s, step) && DoneOk(s, op)
    ensures DoneOk(After(s, step), op)
  {
    match step
    case Perform(m, _, _) =>
      assert s.rows[m].op in s.past.current;
    case Complete(id, end, now, interrupted) =>
      assert s.rows[s.busy.value.m].op in s.past.current;
      DoneStaysRecorded(s, BusyResult(s.busy.value, end, interrupted), id, now, op);
    case _ =>
  }

  lemma DoneStaysRecorded(s: State, r: Report, id: Id, now: int, op: Id)
    requires DoneOk(s, op) && s.busy.Some? && s.busy.value.m in s.rows && s.rows[s.busy.value.m].op in s.past.current
    ensures DoneOk(Recorded(s, s.busy.value.m, r, id, now), op)
  {
  }

  lemma OnlyCompletionsTell(s: State, step: WorkChain.Step)
    requires Enabled(s, step) && After(s, step).told != s.told
    ensures step.Complete?
  {
  }

  lemma DoneIsRecorded(s: State, step: WorkChain.Step, e: Event)
    requires Inv(s) && Enabled(s, step) && step.Complete? && e in After(s, step).told && e !in s.told && e.kind.InstallDone?
    ensures DoneOk(After(s, step), e.op)
  {
    var b := s.busy.value;
    ResultIsProper(s.log[b.job.op], b, step.end, step.interrupted);
    if BusyResult(b, step.end, step.interrupted).event == Some(InstallDone) { DoneIsFinish(b, step.end, step.interrupted); }
    RecordedDone(s, BusyResult(b, step.end, step.interrupted), step.id, step.now, e);
  }

  /** Only the last step reports the end. */
  lemma DoneIsFinish(b: Busy, end: int, interrupted: bool)
    requires BusyResult(b, end, interrupted).event == Some(InstallDone)
    ensures b.job.step == Finish
  {
  }

  lemma RecordedDone(s: State, r: Report, id: Id, now: int, e: Event)
    requires OneLive(s.rows, s.past) && BusyOk(s.rows, s.busy, s.hand, s.log) && s.busy.Some? && Proper(s.busy.value.job, r)
    requires r.event == Some(InstallDone) ==> s.busy.value.job.step == Finish
    requires e in Recorded(s, s.busy.value.m, r, id, now).told && e !in s.told && e.kind.InstallDone?
    ensures DoneOk(Recorded(s, s.busy.value.m, r, id, now), e.op)
  {
    assert e == Event(s.busy.value.m, s.busy.value.job.op, r.event.value);
  }

  lemma {:induction false} RunKeepsDone(states: seq<State>, steps: seq<WorkChain.Step>, n: nat)
    requires Run(states, steps) && states[0] == INITIAL && n <= |steps|
    ensures AllDoneOk(states[n])
  {
    if n > 0 {
      RunKeepsDone(states, steps, n - 1);
      RunKeepsInv(states, steps, n - 1);
      assert Happens(states, steps, n - 1);
      forall e | e in states[n].told && e.kind.InstallDone? ensures DoneOk(states[n], e.op) {
        if e in states[n - 1].told {
          DoneStays(states[n - 1], steps[n - 1], e.op);
        } else {
          OnlyCompletionsTell(states[n - 1], steps[n - 1]);
          DoneIsRecorded(states[n - 1], steps[n - 1], e);
        }
      }
    }
  }

  /**
   * An installation that is reported done in any state of any run has executed every step, its installer has
   * reported success and its agent has come up with the settings applied, whatever was interrupted on the way.
   */
  lemma ReportedMeansInstalled(states: seq<State>, steps: seq<WorkChain.Step>, n: nat, e: Event)
    requires Run(states, steps) && states[0] == INITIAL && n <= |steps| && e in states[n].told && e.kind.InstallDone?
    ensures e.op in states[n].log
    ensures var c := states[n].log[e.op];
            && (forall p: nat :: p < 8 ==> Passes(c, p))
            && (exists i :: PassesAt(c, 2, i) && ReportsSuccess(c[i].oracle))
            && (exists i :: PassesAt(c, 7, i) && AgentReady(c[i].oracle))
  {
    RunKeepsDone(states, steps, n);
    RunKeepsInv(states, steps, n);
    assert DoneOk(states[n], e.op) && LogOk(states[n].log[e.op]);
    FinishedMeansInstalled(states[n].log[e.op]);
  }

  /** The table of events holds only what was recorded. */
  lemma {:induction false} EventsWereTold(states: seq<State>, steps: seq<WorkChain.Step>, n: nat, e: Event)
    requires Run(states, steps) && states[0] == INITIAL && n <= |steps| && e in states[n].events
    ensures e in states[n].told
  {
    if n > 0 {
      assert Happens(states, steps, n - 1);
      if e in states[n - 1].events { EventsWereTold(states, steps, n - 1, e); }
    }
  }

  // ---------------------------------------------------------------- silent ends

  /** The end of the operation was recorded: it is done, or it has failed. */
  ghost predicate EndTold(told: seq<Event>, op: Id) {
    exists e :: e in told && e.op == op && !e.kind.StepApplied?
  }

  /**
   * The step ends the operation without an event: its message has expired, or it is marked failed because its
   * retry time has passed, after an interruption or a refused completion.
   */
  ghost predicate EndsSilently(s: State, step: WorkChain.Step, op: Id)
    requires op in s.past.current && s.past.current[op] in s.rows
  {
    match step
    case ExpireAll(now) => s.rows[s.past.current[op]].expires <= now
    case Complete(_, end, now, interrupted) => s.busy.Some? && s.busy.value.job.op == op && interrupted && end + RETRY_WAIT <= now
    case Retry(end, now) => s.busy.Some? && s.busy.value.job.op == op && end + RETRY_WAIT <= now
    case _ => false
  }

  /** The step records an execution that has done or failed the installation. */
  ghost predicate EndsWithEvent(s: State, step: WorkChain.Step, op: Id) {
    && step.Complete? && s.busy.Some? && s.busy.value.job.op == op && !step.interrupted
    && var b := s.busy.value; !Execute(b.job.step, b.job.state, b.now, b.oracle).Next?
  }

  /** These are all the ways in which an operation ends. */
  lemma EndsIff(s: State, step: WorkChain.Step, op: Id)
    requires OneLive(s.rows, s.past) && BusyOk(s.rows, s.busy, s.hand, s.log) && Enabled(s, step) && op in s.past.current
    ensures op !in After(s, step).past.current <==> EndsSilently(s, step, op) || EndsWithEvent(s, step, op)
  {
    match step
    case Complete(id, end, now, interrupted) => CompleteEndsIff(s, id, end, now, interrupted, op);
    case Retry(end, now) => RetryEndsIff(s.rows, s.past, s.busy.value, end, now, op);
    case ExpireAll(now) => ExpiryEndsIff(s.rows, s.past, now, op);
    case EndLeases(now) => RequeueEndsNone(s.rows, s.past, now, op);
    case Start(o, _, _, _) => assert op != o;
    case _ => assert After(s, step).past.current == s.past.current;
  }

  lemma ExpiryEndsIff(rows: Jobs, p: Past, now: int, op: Id)
    requires OneLive(rows, p) && op in p.current
    ensures op !in Unfinished(ExpiredOnes(rows, now), p) <==> rows[p.current[op]].expires <= now
  {
  }

  lemma RequeueEndsNone(rows: Jobs, p: Past, now: int, op: Id)
    requires OneLive(rows, p) && op in p.current
    ensures op in Unfinished(LeasesEnded(rows, now), p)
  {
  }

  lemma RetryEndsIff(rows: Jobs, p: Past, b: Busy, end: int, now: int, op: Id)
    requires OneLive(rows, p) && b.m in rows && rows[b.m] == b.job && b.job.status.InFlight? && op in p.current
    ensures op !in Unfinished(RetriedRows(rows, b.m, end, now), p) <==> b.job.op == op && end + RETRY_WAIT <= now
  {
    assert p.current[b.job.op] == b.m;
  }

  lemma CompleteEndsIff(s: State, id: Id, end: int, now: int, interrupted: bool, op: Id)
    requires OneLive(s.rows, s.past) && BusyOk(s.rows, s.busy, s.hand, s.log) && Enabled(s, Complete(id, end, now, interrupted)) && op in s.past.current
    ensures op !in After(s, Complete(id, end, now, interrupted)).past.current <==>
            EndsSilently(s, Complete(id, end, now, interrupted), op) || EndsWithEvent(s, Complete(id, end, now, interrupted), op)
  {
  }

  /** A step tells the end of an operation exactly if it ends it with an event. */
  lemma TellsIff(s: State, step: WorkChain.Step, op: Id)
    requires Inv(s) && Enabled(s, step)
    ensures EndTold(After(s, step).told, op) <==> EndTold(s.told, op) || EndsWithEvent(s, step, op)
  {
    if step.Complete? {
      var b, r := s.busy.value, BusyResult(s.busy.value, step.end, step.interrupted);
      assert After(s, step).told == CompletedEvents(s.rows, s.told, b.m, r);
      CompletionTells(s.rows, s.told, b, r, op);
    } else {
      assert After(s, step).told == s.told;
    }
  }

  lemma CompletionTells(rows: Jobs, told: seq<Event>, b: Busy, r: Report, op: Id)
    requires b.m in rows && rows[b.m] == b.job
    ensures EndTold(CompletedEvents(rows, told, b.m, r), op) <==> EndTold(told, op) || (b.job.op == op && r.event.Some? && r.event != Some(StepApplied))
  {
    var told' := CompletedEvents(rows, told, b.m, r);
    if EndTold(told, op) {
      var e :| e in told && e.op == op && !e.kind.StepApplied?;
      assert e in told';
    }
    if b.job.op == op && r.event.Some? && r.event != Some(StepApplied) {
      assert Event(b.m, op, r.event.value) in told';
    }
  }

  /** While an operation is unfinished, no end of it was told. */
  lemma {:induction false} UnfinishedIsUntold(states: seq<State>, steps: seq<WorkChain.Step>, n: nat, op: Id)
    requires Run(states, steps) && states[0] == INITIAL && n <= |steps| && (op in states[n].past.current || op !in states[n].past.started)
    ensures !EndTold(states[n].told, op)
  {
    if n > 0 {
      RunKeepsInv(states, steps, n - 1);
      assert Happens(states, steps, n - 1);
      CurrentFrame(states[n - 1], steps[n - 1], op);
      UnfinishedIsUntold(states, steps, n - 1, op);
      TellsIff(states[n - 1], steps[n - 1], op);
      if op in states[n - 1].past.current { EndsIff(states[n - 1], steps[n - 1], op); }
    }
  }

  lemma BusyIsCurrent(s: State)
    requires OneLive(s.rows, s.past) && BusyOk(s.rows, s.busy, s.hand, s.log) && s.busy.Some?
    ensures s.busy.value.job.op in s.past.current && s.busy.value.job.op in s.past.started
    ensures s.rows[s.busy.value.m].op == s.busy.value.job.op
  {
  }

  /** Only a new operation becomes unfinished, and it is started then. */
  lemma CurrentStep(s: State, step: WorkChain.Step)
    requires Enabled(s, step) && (s.busy.Some? ==> s.busy.value.m in s.rows && s.rows[s.busy.value.m].op in s.past.current)
    ensures var p, p' := s.past, After(s, step).past;
            if step.Start? then p'.current.Keys == p.current.Keys + {step.op} && p'.started == p.started + {step.op}
            else p'.current.Keys <= p.current.Keys && p'.started == p.started
  {
    if step.Complete? {
      CompletionShrinks(s.rows, s.past, s.busy.value.m, BusyResult(s.busy.value, step.end, step.interrupted), step.id, step.now);
    }
  }

  lemma CompletionShrinks(rows: Jobs, p: Past, m: Id, r: Report, id: Id, now: int)
    requires m in rows && rows[m].op in p.current
    ensures CompletedPast(rows, p, m, r, id, now).current.Keys <= p.current.Keys && CompletedPast(rows, p, m, r, id, now).started == p.started
  {
  }

  lemma CurrentFrame(s: State, step: WorkChain.Step, op: Id)
    requires Inv(s) && Enabled(s, step)
    ensures var p, p' := s.past, After(s, step).past;
            && (op in p'.current && op !in p.current ==> op !in p.started && step.Start? && step.op == op)
            && (op in p'.started && op !in p.started ==> op in p'.current && step.Start?) && (op in p.started ==> op in p'.started)
            && (op !in p.current ==> !EndsWithEvent(s, step, op))
  {
    if s.busy.Some? { BusyIsCurrent(s); }
    CurrentStep(s, step);
  }

  /** The operation ends at the i-th step. */
  ghost predicate EndsAt(states: seq<State>, i: nat, op: Id) {
    i + 1 < |states| && op in states[i].past.current && op !in states[i + 1].past.current
  }

  lemma EndedStays(s: State, step: WorkChain.Step, op: Id)
    requires Inv(s) && Enabled(s, step) && op in s.past.started && op !in s.past.current
    ensures op in After(s, step).past.started && op !in After(s, step).past.current
    ensures EndTold(After(s, step).told, op) <==> EndTold(s.told, op)
  {
    TellsIff(s, step, op);
    CurrentFrame(s, step, op);
  }

  /** Every operation that was started and is not unfinished has ended at some step. */
  lemma {:induction false} EndsSomewhere(states: seq<State>, steps: seq<WorkChain.Step>, n: nat, op: Id)
    requires Run(states, steps) && states[0] == INITIAL && n <= |steps| && op in states[n].past.started && op !in states[n].past.current
    ensures exists i :: 0 <= i < n && EndsAt(states, i, op)
  {
    assert n > 0;
    if op in states[n - 1].past.current {
      assert EndsAt(states, n - 1, op);
    } else {
      RunKeepsInv(states, steps, n - 1);
      assert Happens(states, steps, n - 1);
      CurrentFrame(states[n - 1], steps[n - 1], op);
      EndsSomewhere(states, steps, n - 1, op);
    }
  }

  lemma EndStep(s: State, step: WorkChain.Step, op: Id)
    requires Inv(s) && Enabled(s, step) && op in s.past.current && op !in After(s, step).past.current && !EndTold(s.told, op)
    ensures op in After(s, step).past.started
    ensures EndTold(After(s, step).told, op) <==> !EndsSilently(s, step, op)
  {
    EndsIff(s, step, op);
    TellsIff(s, step, op);
    CurrentFrame(s, step, op);
  }

  lemma {:induction false} ToldStays(states: seq<State>, steps: seq<WorkChain.Step>, i: nat, n: nat, op: Id)
    requires Run(states, steps) && states[0] == INITIAL && i <= n <= |steps| && op in states[i].past.started && op !in states[i].past.current
    ensures op in states[n].past.started && op !in states[n].past.current
    ensures EndTold(states[n].told, op) <==> EndTold(states[i].told, op)
    decreases n
  {
    if i < n {
      ToldStays(states, steps, i, n - 1, op);
      RunKeepsInv(states, steps, n - 1);
      assert Happens(states, steps, n - 1);
      EndedStays(states[n - 1], steps[n - 1], op);
    }
  }

  /**
   * Over every run an ended operation was told, as done or as failed, exactly if it did not end silently: by the
   * expiry of its message, or by a failure that is written after its own retry time.
   */
  lemma EndIsToldIff(states: seq<State>, steps: seq<WorkChain.Step>, i: nat, n: nat, op: Id)
    requires Run(states, steps) && states[0] == INITIAL && i < n <= |steps| && EndsAt(states, i, op)
    ensures states[i].past.current[op] in states[i].rows && op in states[n].past.started && op !in states[n].past.current
    ensures EndTold(states[n].told, op) <==> !EndsSilently(states[i], steps[i], op)
  {
    RunKeepsInv(states, steps, i);
    assert Happens(states, steps, i);
    UnfinishedIsUntold(states, steps, i, op);
    EndStep(states[i], steps[i], op);
    ToldStays(states, steps, i + 1, n, op);
  }

  /** Silent ends are reachable: an interrupted step whose completion is written ten seconds after its end. */
  lemma SilentEnd() returns (states: seq<State>, steps: seq<WorkChain.Step>)
    ensures Run(states, steps) && states[0] == INITIAL
    ensures "op" in states[|steps|].past.started && "op" !in states[|steps|].past.current && !EndTold(states[|steps|].told, "op")
  {
    var start := Start("op", Install("", 0, INSTALLATION_TIME), "m", 0);
    var perform := Perform("m", 0, Oracle(Retryable, false, None));
    var complete := Complete("n", 0, RETRY_WAIT, true);
    var s1 := After(INITIAL, start);
    var s2 := After(s1, Take("m", 0));
    var s3 := After(s2, perform);
    var s4 := After(s3, complete);
    assert s3.busy == Some(Busy("m", s2.rows["m"], 0, perform.oracle)) && s3.told == [];
    states, steps := [INITIAL, s1, s2, s3, s4], [start, Take("m", 0), perform, complete];
    assert s4.told == [];
  }
}
