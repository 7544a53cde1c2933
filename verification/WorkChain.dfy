/**
 * The installation messages of the server and its single worker, as a machine. A message is leased,
 * executed and completed together with its successor and its event, or it is retried; the worker may
 * stop and the database may refuse at any statement.
 */
module WorkChain {
  import opened Ids
  import opened Wrappers
  import opened AwgInstall
  import opened MessageQueue

  datatype Job = Job(op: Id, step: AwgInstall.Step, state: Install, status: Status, available: int, expires: int)

  type Jobs = map<Id, Job>

  datatype Kind = StepApplied | InstallDone | StepFailed

  datatype Event = Event(source: Id, op: Id, kind: Kind)

  const LEASE := 30_000

  /** What a handler asks the worker to record. */
  datatype Report = Report(applied: bool, next: Option<Job>, event: Option<Kind>, retryAt: Option<int>)

  function JobFor(op: Id, step: AwgInstall.Step, s: Install, available: int): Job {
    Job(op, step, s, Pending, available, s.deadline + EXPIRY_MARGIN)
  }

  /** `AWGInstallHandler.Handle`, ending at `end`: repeating a step is no event, and a failed step is final. */
  function HandlerResult(job: Job, outcome: Outcome, end: int): Report {
    match outcome
    case Next(step, s, wait) =>
      Report(true, Some(JobFor(job.op, step, s, end + wait)), if step == job.step then None else Some(StepApplied), None)
    case Done => Report(true, None, Some(InstallDone), None)
    case Error => Report(false, None, Some(StepFailed), None)
  }

  /** An interrupted execution is retried. */
  function Interrupted(end: int): Report {
    Report(false, None, None, Some(end + RETRY_WAIT))
  }

  // ---------------------------------------------------------------- what holds of the tables

  /** History: the live message of every unfinished operation, the successor recorded for a message, and what cleanup deleted. */
  datatype Past = Past(current: map<Id, Id>, children: map<Id, Id>, started: set<Id>, used: set<Id>, cleaned: set<Id>)

  /** An operation is unfinished exactly while it has a live message, and then it has one only. */
  ghost predicate OneLive(rows: Jobs, p: Past) {
    && (forall op :: op in p.current ==> p.current[op] in rows && rows[p.current[op]].op == op && rows[p.current[op]].status.Live())
    && (forall m :: m in rows && rows[m].status.Live() ==> rows[m].op in p.current && p.current[rows[m].op] == m)
    && (forall m :: m in rows ==> rows[m].op in p.started)
    && p.current.Keys <= p.started
  }

  /** A message is applied exactly if its successor was recorded, or the end of its operation. */
  ghost predicate AppliedIffRecorded(rows: Jobs, events: seq<Event>, p: Past) {
    forall m :: m in rows ==>
      (rows[m].status.Applied? <==> m in p.children || Event(m, rows[m].op, InstallDone) in events)
  }

  /** A recorded successor is a message of the same operation, until cleanup deletes it. */
  ghost predicate SuccessorsExist(rows: Jobs, p: Past) {
    forall m :: m in p.children ==>
      && (p.children[m] in rows || p.children[m] in p.cleaned)
      && (m in rows && p.children[m] in rows ==> rows[p.children[m]].op == rows[m].op)
  }

  /** A successor of another step comes with an event, a repeated step without; a reported failure is final. */
  ghost predicate EventsTold(rows: Jobs, events: seq<Event>, p: Past) {
    && (forall m :: m in rows && m in p.children && p.children[m] in rows ==>
          (Event(m, rows[m].op, StepApplied) in events <==> rows[p.children[m]].step != rows[m].step))
    && (forall m :: m in rows && Event(m, rows[m].op, StepApplied) in events ==> m in p.children)
    && (forall m :: m in rows && Event(m, rows[m].op, StepFailed) in events ==> rows[m].status.Failed?)
  }

  ghost predicate Fresh(rows: Jobs, events: seq<Event>, p: Past) {
    && rows.Keys <= p.used && p.children.Keys <= p.used && p.children.Values <= p.used
    && (forall e :: e in events ==> e.source in p.used)
  }

  ghost predicate InOrder(rows: Jobs, events: seq<Event>, p: Past) {
    OneLive(rows, p) && AppliedIffRecorded(rows, events, p) && SuccessorsExist(rows, p) && EventsTold(rows, events, p) && Fresh(rows, events, p)
  }

  // ---------------------------------------------------------------- one completion

  function StatusAfter(r: Report, now: int): Status {
    if r.applied then Status.Applied else if r.retryAt.Some? && r.retryAt.value > now then Pending else Failed
  }

  function CompletedRows(rows: Jobs, m: Id, r: Report, id: Id, now: int): Jobs
    requires m in rows
  {
    var marked := rows[m].(status := StatusAfter(r, now),
                           available := if r.applied then rows[m].available else if r.retryAt.Some? then r.retryAt.value else now);
    if r.next.Some? then rows[id := r.next.value][m := marked] else rows[m := marked]
  }

  function CompletedEvents(rows: Jobs, events: seq<Event>, m: Id, r: Report): seq<Event>
    requires m in rows
  {
    if r.event.Some? then events + [Event(m, rows[m].op, r.event.value)] else events
  }

  function CompletedPast(rows: Jobs, p: Past, m: Id, r: Report, id: Id, now: int): Past
    requires m in rows
  {
    var op := rows[m].op;
    if r.next.Some? then p.(current := p.current[op := id], children := p.children[m := id], used := p.used + {id})
    else if StatusAfter(r, now).Live() then p
    else p.(current := p.current - {op})
  }

  /** Results of the installation handler: an applied step has a successor or ends the installation. */
  ghost predicate Proper(job: Job, r: Report) {
    && (r.next.Some? ==> r.applied && r.next.value.op == job.op && r.next.value.status.Pending?)
    && (r.applied <==> r.next.Some? || r.event == Some(InstallDone))
    && (r.event == Some(InstallDone) ==> r.next.None?)
    && (r.event == Some(StepApplied) <==> r.next.Some? && r.next.value.step != job.step)
    && (r.event == Some(StepFailed) ==> !r.applied && r.retryAt.None?)
  }

  lemma CompletionKeepsOneLive(rows: Jobs, p: Past, m: Id, r: Report, id: Id, now: int)
    requires OneLive(rows, p) && m in rows && rows[m].status.Live() && Proper(rows[m], r)
    requires rows.Keys <= p.used && id !in p.used
    ensures OneLive(CompletedRows(rows, m, r, id, now), CompletedPast(rows, p, m, r, id, now))
  {
  }

  lemma CompletionKeepsRecorded(rows: Jobs, events: seq<Event>, p: Past, m: Id, r: Report, id: Id, now: int)
    requires AppliedIffRecorded(rows, events, p) && Fresh(rows, events, p)
    requires m in rows && rows[m].status.Live() && Proper(rows[m], r) && id !in p.used
    ensures AppliedIffRecorded(CompletedRows(rows, m, r, id, now), CompletedEvents(rows, events, m, r), CompletedPast(rows, p, m, r, id, now))
  {
    var rows', events', p' := CompletedRows(rows, m, r, id, now), CompletedEvents(rows, events, m, r), CompletedPast(rows, p, m, r, id, now);
    forall q | q in rows' ensures rows'[q].status.Applied? <==> q in p'.children || Event(q, rows'[q].op, InstallDone) in events' {
      if q != m && q != id {
        assert rows'[q] == rows[q];
        assert rows[q].status.Applied? <==> q in p.children || Event(q, rows[q].op, InstallDone) in events;
      }
    }
  }

  /** A completed message, its successor and its event are recorded together, and the tables stay in order. */
  lemma CompletionKeepsOk(rows: Jobs, events: seq<Event>, p: Past, m: Id, r: Report, id: Id, now: int)
    requires InOrder(rows, events, p) && m in rows && rows[m].status.Live() && Proper(rows[m], r) && id !in p.used
    ensures InOrder(CompletedRows(rows, m, r, id, now), CompletedEvents(rows, events, m, r), CompletedPast(rows, p, m, r, id, now))
  {
    CompletionKeepsOneLive(rows, p, m, r, id, now);
    CompletionKeepsRecorded(rows, events, p, m, r, id, now);
    CompletionKeepsSuccessors(rows, events, p, m, r, id, now);
    assert m !in p.children;
    CompletionTellsEvents(rows, events, p, m, r, id, now);
  }

  lemma CompletionTellsEvents(rows: Jobs, events: seq<Event>, p: Past, m: Id, r: Report, id: Id, now: int)
    requires EventsTold(rows, events, p) && Fresh(rows, events, p) && m in rows && m !in p.children && rows[m].status.Live() && Proper(rows[m], r) && id !in p.used
    ensures EventsTold(CompletedRows(rows, m, r, id, now), CompletedEvents(rows, events, m, r), CompletedPast(rows, p, m, r, id, now))
  {
    var rows', events', p' := CompletedRows(rows, m, r, id, now), CompletedEvents(rows, events, m, r), CompletedPast(rows, p, m, r, id, now);
    forall q | q in rows' && q != m
      ensures forall kind :: Event(q, rows'[q].op, kind) in events' <==> q != id && Event(q, rows'[q].op, kind) in events
      ensures q != id ==> q in rows && rows'[q] == rows[q]
      ensures q in p'.children <==> q != id && q in p.children
    {
    }
    forall q | q in p.children ensures p.children[q] != id {
      assert p.children[q] in p.children.Values;
    }
    StepEventsTold(rows, rows', events, events', p, p', m, id);
  }

  /** The events of all other messages are as before, and those of the completed one are as its result says. */
  lemma StepEventsTold(rows: Jobs, rows': Jobs, events: seq<Event>, events': seq<Event>, p: Past, p': Past, m: Id, id: Id)
    requires EventsTold(rows, events, p) && m in rows && m in rows' && rows'[m].op == rows[m].op && rows'[m].step == rows[m].step
    requires forall q :: q in rows' && q != m ==>
               && (q != id ==> q in rows && rows'[q] == rows[q])
               && (q in p'.children <==> q != id && q in p.children)
               && forall kind :: Event(q, rows'[q].op, kind) in events' <==> q != id && Event(q, rows'[q].op, kind) in events
    requires forall q :: q in p.children ==> p.children[q] != id && (q != m ==> q in p'.children && p'.children[q] == p.children[q])
    requires m in p'.children && p'.children[m] in rows' ==>
               (Event(m, rows[m].op, StepApplied) in events' <==> rows'[p'.children[m]].step != rows[m].step)
    requires Event(m, rows[m].op, StepApplied) in events' ==> m in p'.children
    requires Event(m, rows[m].op, StepFailed) in events' ==> rows'[m].status.Failed?
    ensures EventsTold(rows', events', p')
  {
    forall q | q in rows' && q in p'.children && p'.children[q] in rows'
      ensures Event(q, rows'[q].op, StepApplied) in events' <==> rows'[p'.children[q]].step != rows'[q].step
    {
      if q != m {
        assert p.children[q] != id;
        assert p.children[q] == m || rows'[p.children[q]] == rows[p.children[q]];
      }
    }
  }

  lemma CompletionKeepsSuccessors(rows: Jobs, events: seq<Event>, p: Past, m: Id, r: Report, id: Id, now: int)
    requires SuccessorsExist(rows, p) && Fresh(rows, events, p) && m in rows && Proper(rows[m], r) && id !in p.used
    ensures SuccessorsExist(CompletedRows(rows, m, r, id, now), CompletedPast(rows, p, m, r, id, now))
    ensures CompletedPast(rows, p, m, r, id, now).children.Values <= CompletedPast(rows, p, m, r, id, now).used
  {
    var rows', p' := CompletedRows(rows, m, r, id, now), CompletedPast(rows, p, m, r, id, now);
    forall q | q in p'.children
      ensures p'.children[q] in rows' || p'.children[q] in p'.cleaned
      ensures q in rows' && p'.children[q] in rows' ==> rows'[p'.children[q]].op == rows'[q].op
    {
      if q in p.children {
        assert p.children[q] in p.children.Values;
      }
    }
  }

  // ---------------------------------------------------------------- changes of status

  /** Live messages stay live, fail or expire; nothing else changes. */
  ghost predicate Relabels(rows: Jobs, rows': Jobs) {
    && rows'.Keys == rows.Keys
    && forall m :: m in rows ==>
         && rows'[m] == rows[m].(status := rows'[m].status, available := rows'[m].available)
         && (!rows[m].status.Live() ==> rows'[m] == rows[m])
         && (rows[m].status.Live() ==> rows'[m].status.Live() || rows'[m].status.Failed? || rows'[m].status.Expired?)
  }

  /** The operations whose message is still live. */
  ghost function Unfinished(rows: Jobs, p: Past): map<Id, Id> {
    map op | op in p.current && p.current[op] in rows && rows[p.current[op]].status.Live() :: p.current[op]
  }

  lemma RelabelledOneLive(rows: Jobs, rows': Jobs, p: Past)
    requires OneLive(rows, p) && Relabels(rows, rows')
    ensures OneLive(rows', p.(current := Unfinished(rows', p)))
  {
  }

  lemma RelabelledRecords(rows: Jobs, rows': Jobs, events: seq<Event>, p: Past, p': Past)
    requires AppliedIffRecorded(rows, events, p) && SuccessorsExist(rows, p) && Relabels(rows, rows') && p' == p.(current := p'.current)
    ensures AppliedIffRecorded(rows', events, p') && SuccessorsExist(rows', p')
  {
    forall m | m in rows' ensures rows'[m].status.Applied? <==> m in p.children || Event(m, rows'[m].op, InstallDone) in events {
      assert rows[m].status.Applied? <==> m in p.children || Event(m, rows[m].op, InstallDone) in events;
    }
  }

  lemma RelabelledEvents(rows: Jobs, rows': Jobs, events: seq<Event>, p: Past, p': Past)
    requires EventsTold(rows, events, p) && Fresh(rows, events, p) && Relabels(rows, rows') && p' == p.(current := p'.current)
    ensures EventsTold(rows', events, p') && Fresh(rows', events, p')
  {
    forall m | m in rows' && Event(m, rows'[m].op, StepFailed) in events ensures rows'[m].status.Failed? {
      assert Event(m, rows[m].op, StepFailed) in events;
    }
  }

  /** Leasing, requeueing, expiring and retrying keep the tables in order. */
  lemma RelabellingKeepsOrder(rows: Jobs, rows': Jobs, events: seq<Event>, p: Past)
    requires InOrder(rows, events, p) && Relabels(rows, rows')
    ensures InOrder(rows', events, p.(current := Unfinished(rows', p)))
  {
    RelabelledOneLive(rows, rows', p);
    RelabelledRecords(rows, rows', events, p, p.(current := Unfinished(rows', p)));
    RelabelledEvents(rows, rows', events, p, p.(current := Unfinished(rows', p)));
  }

  function Relabelled(rows: Jobs, m: Id, status: Status, available: int): Jobs
    requires m in rows
  {
    rows[m := rows[m].(status := status, available := available)]
  }

  /** First statement of `RequeueExpiredLeases`. */
  function LeasesEnded(rows: Jobs, now: int): Jobs {
    map m | m in rows ::
      if rows[m].status.InFlight? && rows[m].available <= now < rows[m].expires then rows[m].(status := Pending) else rows[m]
  }

  /** Second statement of `RequeueExpiredLeases`. */
  function ExpiredOnes(rows: Jobs, now: int): Jobs {
    map m | m in rows :: if rows[m].status.Live() && rows[m].expires <= now then rows[m].(status := Expired) else rows[m]
  }

  // ---------------------------------------------------------------- the executions of every operation

  /** A message that can be leased from a time on is the next one of its operation. */
  ghost predicate Awaits(log: seq<Execution>, j: Job, from: int) {
    if log == [] then j.step == Prepare && j.state.runs == 0 && j.state.deadline - INSTALLATION_TIME <= from
    else ComesAfter(log[|log| - 1], j.step, j.state, from)
  }

  /** The message was executed under the lease that it has. */
  ghost predicate Taken(log: seq<Execution>, j: Job) {
    log != [] && var e := log[|log| - 1]; e.step == j.step && e.state == j.state && e.leasedAt == j.available - LEASE
  }

  ghost predicate NextUp(log: seq<Execution>, j: Job) {
    && j.expires == j.state.deadline + EXPIRY_MARGIN
    && (j.status.Pending? ==> Awaits(log, j, j.available))
    && (j.status.InFlight? ==> j.available - LEASE < j.expires && (Awaits(log, j, j.available - LEASE) || Taken(log, j)))
  }

  ghost predicate LogOk(c: seq<Execution>) {
    && Chain(c)
    && (c != [] ==> c[0].step == Prepare && c[0].state.runs == 0 && c[0].state.deadline - INSTALLATION_TIME <= c[0].leasedAt)
  }

  /** What was executed for an operation is a chain, and its live message continues it. */
  ghost predicate Traced(rows: Jobs, p: Past, log: map<Id, seq<Execution>>) {
    && (forall op :: op in p.started ==> op in log && LogOk(log[op]))
    && (forall op :: op in p.current ==> op in log && p.current[op] in rows && NextUp(log[op], rows[p.current[op]]))
  }

  lemma LaterIsFine(log: seq<Execution>, j: Job, from: int, later: int)
    requires Awaits(log, j, from) && from <= later
    ensures Awaits(log, j, later)
  {
  }

  /** Ending a lease leaves a message that may be leased again, executed or not. */
  lemma EndedLeaseAwaits(log: seq<Execution>, j: Job)
    requires NextUp(log, j) && j.status.Live()
    ensures Awaits(log, j, j.available)
  {
    if j.status.InFlight? && Awaits(log, j, j.available - LEASE) { LaterIsFine(log, j, j.available - LEASE, j.available); }
  }

  lemma LogGrows(c: seq<Execution>, e: Execution)
    requires LogOk(c) && InTime(e)
    requires if c == [] then e.step == Prepare && e.state.runs == 0 && e.state.deadline - INSTALLATION_TIME <= e.leasedAt
             else ComesAfter(c[|c| - 1], e.step, e.state, e.leasedAt)
    ensures LogOk(c + [e])
  {
    assert (c + [e])[..|c|] == c;
  }

  /** Only one operation is touched. */
  lemma OneTraced(rows: Jobs, p: Past, log: map<Id, seq<Execution>>, rows': Jobs, p': Past, log': map<Id, seq<Execution>>, op: Id)
    requires Traced(rows, p, log) && p'.started <= p.started + {op}
    requires forall o :: o in log && o != op ==> o in log' && log'[o] == log[o]
    requires forall o :: o in p'.current && o != op ==>
               o in p.current && p'.current[o] == p.current[o] && p.current[o] in rows' && rows'[p.current[o]] == rows[p.current[o]]
    requires op in p'.started ==> op in log' && LogOk(log'[op])
    requires op in p'.current ==> op in log' && p'.current[op] in rows' && NextUp(log'[op], rows'[p'.current[op]])
    ensures Traced(rows', p', log')
  {
  }

  /** Ended leases and expired messages keep every operation's trace. */
  lemma RequeueTraced(rows: Jobs, p: Past, log: map<Id, seq<Execution>>, rows': Jobs)
    requires Traced(rows, p, log) && rows'.Keys == rows.Keys
    requires forall m :: m in rows && rows'[m].status.Live() ==>
               rows[m].status.Live() && (rows'[m] == rows[m] || rows'[m] == rows[m].(status := Pending))
    ensures Traced(rows', p.(current := Unfinished(rows', p)), log)
  {
    forall op | op in Unfinished(rows', p) ensures NextUp(log[op], rows'[p.current[op]]) {
      EndedLeaseAwaits(log[op], rows[p.current[op]]);
    }
  }

  predicate Due(j: Job, now: int) {
    j.status.Pending? && j.available <= now < j.expires
  }

  function ExecutionOf(j: Job, now: int, oracle: Oracle): Execution {
    Execution(j.step, j.state, j.available - LEASE, now, oracle)
  }

  function ResultOf(j: Job, now: int, end: int, oracle: Oracle, interrupted: bool): Report {
    if interrupted then Interrupted(end) else HandlerResult(j, Execute(j.step, j.state, now, oracle), end)
  }

  /** Whatever a result leaves live continues the operation's executions. */
  ghost predicate Continued(log: seq<Execution>, j: Job, r: Report) {
    && (r.next.Some? ==> NextUp(log, r.next.value))
    && (r.retryAt.Some? ==> Awaits(log, j, r.retryAt.value))
  }

  lemma CompletionTraced(rows: Jobs, p: Past, log: map<Id, seq<Execution>>, m: Id, r: Report, id: Id, now: int)
    requires OneLive(rows, p) && Traced(rows, p, log) && rows.Keys <= p.used && id !in p.used
    requires m in rows && rows[m].status.Live() && Proper(rows[m], r) && rows[m].op in log && Continued(log[rows[m].op], rows[m], r)
    ensures Traced(CompletedRows(rows, m, r, id, now), CompletedPast(rows, p, m, r, id, now), log)
  {
    OneTraced(rows, p, log, CompletedRows(rows, m, r, id, now), CompletedPast(rows, p, m, r, id, now), log, rows[m].op);
  }

  // ---------------------------------------------------------------- the machine

  /** An execution that is not recorded yet. */
  datatype Busy = Busy(m: Id, job: Job, now: int, oracle: Oracle)

  /**
   * The databases, the worker's memory (messages in hand with the time of their lease, and the execution
   * under way), and the history of operations, executions and recorded events.
   */
  datatype State = State(rows: Jobs, events: seq<Event>, hand: map<Id, int>, busy: Option<Busy>,
                         past: Past, log: map<Id, seq<Execution>>, told: seq<Event>)

  datatype Step =
    | Start(op: Id, state: Install, id: Id, now: int)
    | EndLeases(now: int)
    | ExpireAll(now: int)
    | Take(m: Id, now: int)
    | Perform(m: Id, now: int, oracle: Oracle)
    | Complete(id: Id, end: int, now: int, interrupted: bool)
    | Retry(end: int, now: int)
    | Drop
    | Crash
    | Clean(gone: set<Id>)
    | CleanEvents(kept: seq<Event>)

  /** The worker is between two batches: it works them off one after the other. */
  predicate Resting(s: State) {
    s.hand == map[] && s.busy.None?
  }

  predicate Enabled(s: State, step: Step) {
    match step
    case Start(op, state, id, now) =>
      op !in s.past.started && id !in s.past.used && state.runs == 0 && state.deadline <= now + INSTALLATION_TIME
    case EndLeases(_) => Resting(s)
    case ExpireAll(_) => Resting(s)
    case Take(m, now) => s.busy.None? && m in s.rows && Due(s.rows[m], now)
    case Perform(m, now, _) => s.busy.None? && m in s.hand && m in s.rows && s.rows[m].op in s.log && s.hand[m] <= now
    case Complete(id, end, _, _) => s.busy.Some? && s.busy.value.m in s.rows && s.busy.value.now <= end && id !in s.past.used
    case Retry(end, _) => s.busy.Some? && s.busy.value.m in s.rows && s.busy.value.now <= end
    case Drop => s.busy.Some?
    case Crash => true
    case Clean(gone) => forall m :: m in gone && m in s.rows ==> !s.rows[m].status.Live()
    case CleanEvents(kept) => forall e :: e in kept ==> e in s.events
  }

  /** `MarkFailed` at `now` with a retry ten seconds after the handler ended. */
  function RetriedRows(rows: Jobs, m: Id, end: int, now: int): Jobs
    requires m in rows
  {
    Relabelled(rows, m, if end + RETRY_WAIT > now then Pending else Failed, end + RETRY_WAIT)
  }

  /** Messages change status, and operations whose message is no longer live are finished. */
  ghost function WithStatus(s: State, rows: Jobs): State {
    s.(rows := rows, past := s.past.(current := Unfinished(rows, s.past)))
  }

  ghost function InHandNow(s: State, m: Id, now: int): State
    requires m in s.rows
  {
    s.(rows := Relabelled(s.rows, m, InFlight, now + LEASE), hand := s.hand[m := now])
  }

  /** A message is completed: its status, its successor and its event change together. */
  ghost function Recorded(s: State, m: Id, r: Report, id: Id, now: int): State
    requires m in s.rows
  {
    s.(rows := CompletedRows(s.rows, m, r, id, now), events := CompletedEvents(s.rows, s.events, m, r), busy := None,
       told := CompletedEvents(s.rows, s.told, m, r), past := CompletedPast(s.rows, s.past, m, r, id, now))
  }

  ghost function After(s: State, step: Step): State
    requires Enabled(s, step)
  {
    match step
    case Start(op, state, id, now) =>
      s.(rows := s.rows[id := JobFor(op, Prepare, state, now)],
         past := s.past.(current := s.past.current[op := id], started := s.past.started + {op}, used := s.past.used + {id}),
         log := s.log[op := []])
    case EndLeases(now) => WithStatus(s, LeasesEnded(s.rows, now))
    case ExpireAll(now) => WithStatus(s, ExpiredOnes(s.rows, now))
    case Take(m, now) => InHandNow(s, m, now)
    case Perform(m, now, oracle) =>
      var op := s.rows[m].op;
      s.(hand := s.hand - {m}, busy := Some(Busy(m, s.rows[m], now, oracle)),
         log := s.log[op := s.log[op] + [ExecutionOf(s.rows[m], now, oracle)]])
    case Complete(id, end, now, interrupted) =>
      Recorded(s, s.busy.value.m, BusyResult(s.busy.value, end, interrupted), id, now)
    case Retry(end, now) => WithStatus(s.(busy := None), RetriedRows(s.rows, s.busy.value.m, end, now))
    case Drop => s.(busy := None)
    case Crash => s.(hand := map[], busy := None)
    case Clean(gone) => s.(rows := s.rows - gone, past := s.past.(cleaned := s.past.cleaned + gone))
    case CleanEvents(kept) => s.(events := kept)
  }

  function BusyResult(b: Busy, end: int, interrupted: bool): Report {
    ResultOf(b.job, b.now, end, b.oracle, interrupted)
  }

  ghost predicate Happens(states: seq<State>, steps: seq<Step>, i: nat) {
    i < |steps| && i + 1 < |states| && Enabled(states[i], steps[i]) && states[i + 1] == After(states[i], steps[i])
  }

  ghost predicate Run(states: seq<State>, steps: seq<Step>) {
    |states| == |steps| + 1 && forall i :: 0 <= i < |steps| ==> Happens(states, steps, i)
  }

  lemma RunExtends(states: seq<State>, steps: seq<Step>, step: Step)
    requires Run(states, steps) && Enabled(states[|steps|], step)
    ensures Run(states + [After(states[|steps|], step)], steps + [step])
  {
    var states', steps' := states + [After(states[|steps|], step)], steps + [step];
    forall i | 0 <= i < |steps'| ensures Happens(states', steps', i) {
      if i < |steps| { assert Happens(states, steps, i); }
    }
  }

  const INITIAL: State := State(map[], [], map[], None, Past(map[], map[], {}, {}, {}), map[], [])

  // ---------------------------------------------------------------- its invariant

  /** A message in hand is in flight under its lease and was not executed under it. */
  ghost predicate HandOk(rows: Jobs, hand: map<Id, int>, log: map<Id, seq<Execution>>) {
    forall m :: m in hand ==>
      && m in rows && rows[m].status.InFlight? && rows[m].available == hand[m] + LEASE && rows[m].op in log
      && Awaits(log[rows[m].op], rows[m], hand[m])
  }

  /** The message under way is in flight, and its execution is the last one of its operation. */
  ghost predicate BusyOk(rows: Jobs, busy: Option<Busy>, hand: map<Id, int>, log: map<Id, seq<Execution>>) {
    busy.Some? ==>
      var b := busy.value;
      && b.m in rows && rows[b.m] == b.job && b.job.status.InFlight? && b.m !in hand && b.job.op in log
      && log[b.job.op] != [] && log[b.job.op][|log[b.job.op]| - 1] == ExecutionOf(b.job, b.now, b.oracle)
      && b.job.available - LEASE <= b.now
  }

  ghost predicate Inv(s: State) {
    && InOrder(s.rows, s.told, s.past) && Traced(s.rows, s.past, s.log)
    && HandOk(s.rows, s.hand, s.log) && BusyOk(s.rows, s.busy, s.hand, s.log)
  }

  lemma StartKeeps(s: State, step: Step)
    requires Inv(s) && Enabled(s, step) && step.Start?
    ensures Inv(After(s, step))
  {
    var j := JobFor(step.op, Prepare, step.state, step.now);
    StartInOrder(s.rows, s.told, s.past, step.op, step.id, j);
    StartTraced(s.rows, s.past, s.log, step.op, step.id, j);
    HandUntouched(s.rows, s.log, s.hand, s.busy, s.rows[step.id := j], s.log[step.op := []], step.op);
  }

  lemma StartInOrder(rows: Jobs, events: seq<Event>, p: Past, op: Id, id: Id, j: Job)
    requires InOrder(rows, events, p) && op !in p.started && id !in p.used && j.op == op && j.status.Pending?
    ensures InOrder(rows[id := j], events, p.(current := p.current[op := id], started := p.started + {op}, used := p.used + {id}))
  {
    forall m | m in p.children ensures p.children[m] != id {
      assert p.children[m] in p.children.Values;
    }
  }

  lemma StartTraced(rows: Jobs, p: Past, log: map<Id, seq<Execution>>, op: Id, id: Id, j: Job)
    requires Traced(rows, p, log) && id !in rows && j.status.Pending? && NextUp([], j)
    ensures Traced(rows[id := j], p.(current := p.current[op := id], started := p.started + {op}, used := p.used + {id}), log[op := []])
  {
  }

  /** What the worker holds is not concerned by a change to another operation. */
  lemma HandUntouched(rows: Jobs, log: map<Id, seq<Execution>>, hand: map<Id, int>, busy: Option<Busy>,
                      rows': Jobs, log': map<Id, seq<Execution>>, op: Id)
    requires HandOk(rows, hand, log) && BusyOk(rows, busy, hand, log)
    requires forall m :: m in rows && rows[m].op != op ==> m in rows' && rows'[m] == rows[m]
    requires forall o :: o in log && o != op ==> o in log' && log'[o] == log[o]
    requires forall m :: m in hand && m in rows ==> rows[m].op != op
    requires busy.Some? ==> busy.value.job.op != op
    ensures HandOk(rows', hand, log') && BusyOk(rows', busy, hand, log')
  {
  }

  lemma StatusKeeps(s: State, step: Step)
    requires Inv(s) && Enabled(s, step) && (step.EndLeases? || step.ExpireAll?)
    ensures Inv(After(s, step))
  {
    var rows' := if step.EndLeases? then LeasesEnded(s.rows, step.now) else ExpiredOnes(s.rows, step.now);
    assert After(s, step) == WithStatus(s, rows');
    StatusChanges(s.rows, s.told, s.past, s.log, rows', step.now);
  }

  lemma RequeueRelabels(rows: Jobs, rows': Jobs, now: int)
    requires rows' == LeasesEnded(rows, now) || rows' == ExpiredOnes(rows, now)
    ensures Relabels(rows, rows')
    ensures forall m :: m in rows && rows'[m].status.Live() ==>
              rows[m].status.Live() && (rows'[m] == rows[m] || rows'[m] == rows[m].(status := Pending))
  {
  }

  lemma StatusChanges(rows: Jobs, events: seq<Event>, p: Past, log: map<Id, seq<Execution>>, rows': Jobs, now: int)
    requires InOrder(rows, events, p) && Traced(rows, p, log) && (rows' == LeasesEnded(rows, now) || rows' == ExpiredOnes(rows, now))
    ensures InOrder(rows', events, p.(current := Unfinished(rows', p))) && Traced(rows', p.(current := Unfinished(rows', p)), log)
  {
    RequeueRelabels(rows, rows', now);
    RequeueTraced(rows, p, log, rows');
    RelabellingKeepsOrder(rows, rows', events, p);
  }

  lemma LeaseKeeps(s: State, m: Id, now: int)
    requires Inv(s) && s.busy.None? && m in s.rows && Due(s.rows[m], now)
    ensures Inv(InHandNow(s, m, now))
  {
    TakenKeeps(s.rows, s.told, s.past, s.log, s.hand, m, now);
  }

  lemma TakenKeeps(rows: Jobs, events: seq<Event>, p: Past, log: map<Id, seq<Execution>>, hand: map<Id, int>, m: Id, now: int)
    requires InOrder(rows, events, p) && Traced(rows, p, log) && HandOk(rows, hand, log) && m in rows && Due(rows[m], now)
    ensures var rows' := Relabelled(rows, m, InFlight, now + LEASE);
            InOrder(rows', events, p) && Traced(rows', p, log) && HandOk(rows', hand[m := now], log)
  {
    TakenInOrder(rows, events, p, m, now);
    TakenTraced(rows, p, log, m, now);
    LeasedInHand(rows, hand, log, m, now);
  }

  lemma TakenInOrder(rows: Jobs, events: seq<Event>, p: Past, m: Id, now: int)
    requires InOrder(rows, events, p) && m in rows && rows[m].status.Live()
    ensures InOrder(Relabelled(rows, m, InFlight, now + LEASE), events, p)
  {
    var rows' := Relabelled(rows, m, InFlight, now + LEASE);
    RelabellingKeepsOrder(rows, rows', events, p);
    assert Unfinished(rows', p) == p.current;
    assert p.(current := Unfinished(rows', p)) == p;
  }

  lemma TakenTraced(rows: Jobs, p: Past, log: map<Id, seq<Execution>>, m: Id, now: int)
    requires OneLive(rows, p) && Traced(rows, p, log) && m in rows && Due(rows[m], now)
    ensures Traced(Relabelled(rows, m, InFlight, now + LEASE), p, log)
    ensures rows[m].op in log && Awaits(log[rows[m].op], rows[m], now)
  {
    var op := rows[m].op;
    assert p.current[op] == m && NextUp(log[op], rows[m]);
    LaterIsFine(log[op], rows[m], rows[m].available, now);
    OneTraced(rows, p, log, Relabelled(rows, m, InFlight, now + LEASE), p, log, op);
  }

  lemma LeasedInHand(rows: Jobs, hand: map<Id, int>, log: map<Id, seq<Execution>>, m: Id, now: int)
    requires HandOk(rows, hand, log) && m in rows && rows[m].op in log && Awaits(log[rows[m].op], rows[m], now)
    ensures HandOk(Relabelled(rows, m, InFlight, now + LEASE), hand[m := now], log)
  {
  }

  lemma ExecuteKeeps(s: State, m: Id, now: int, oracle: Oracle)
    requires Inv(s) && Enabled(s, Perform(m, now, oracle))
    ensures Inv(After(s, Perform(m, now, oracle)))
  {
    var op, e := s.rows[m].op, ExecutionOf(s.rows[m], now, oracle);
    var log' := s.log[op := s.log[op] + [e]];
    assert s.past.current[op] == m && NextUp(s.log[op], s.rows[m]);
    LogGrows(s.log[op], e);
    assert Taken(log'[op], s.rows[m]);
    OneTraced(s.rows, s.past, s.log, s.rows, s.past, log', op);
    OthersStayInHand(s, m, log');
  }

  lemma OthersStayInHand(s: State, m: Id, log': map<Id, seq<Execution>>)
    requires OneLive(s.rows, s.past) && HandOk(s.rows, s.hand, s.log) && m in s.hand
    requires forall o :: o in s.log && o != s.rows[m].op ==> o in log' && log'[o] == s.log[o]
    ensures HandOk(s.rows, s.hand - {m}, log')
  {
    forall q | q in s.hand && q != m ensures s.rows[q].op != s.rows[m].op {
    }
  }

  lemma CompleteKeeps(s: State, step: Step)
    requires Inv(s) && Enabled(s, step) && step.Complete?
    ensures Inv(After(s, step))
  {
    var b := s.busy.value;
    ResultIsProper(s.log[b.job.op], b, step.end, step.interrupted);
    RecordedKeeps(s, BusyResult(b, step.end, step.interrupted), step.id, step.now);
  }

  lemma RecordedKeeps(s: State, r: Report, id: Id, now: int)
    requires Inv(s) && s.busy.Some? && id !in s.past.used
    requires Proper(s.busy.value.job, r) && Continued(s.log[s.busy.value.job.op], s.busy.value.job, r)
    ensures Inv(Recorded(s, s.busy.value.m, r, id, now))
  {
    var m := s.busy.value.m;
    CompletionChanges(s.rows, s.told, s.past, s.log, m, r, id, now);
    CompletionInHand(s.rows, s.hand, s.log, m, r, id, now);
  }

  lemma CompletionInHand(rows: Jobs, hand: map<Id, int>, log: map<Id, seq<Execution>>, m: Id, r: Report, id: Id, now: int)
    requires HandOk(rows, hand, log) && m in rows && m !in hand && id !in rows
    ensures HandOk(CompletedRows(rows, m, r, id, now), hand, log)
  {
    StillInHand(rows, hand, log, m, CompletedRows(rows, m, r, id, now));
  }

  lemma CompletionChanges(rows: Jobs, events: seq<Event>, p: Past, log: map<Id, seq<Execution>>, m: Id, r: Report, id: Id, now: int)
    requires InOrder(rows, events, p) && Traced(rows, p, log) && id !in p.used
    requires m in rows && rows[m].status.Live() && Proper(rows[m], r) && rows[m].op in log && Continued(log[rows[m].op], rows[m], r)
    ensures InOrder(CompletedRows(rows, m, r, id, now), CompletedEvents(rows, events, m, r), CompletedPast(rows, p, m, r, id, now))
    ensures Traced(CompletedRows(rows, m, r, id, now), CompletedPast(rows, p, m, r, id, now), log)
  {
    CompletionKeepsOk(rows, events, p, m, r, id, now);
    CompletionTraced(rows, p, log, m, r, id, now);
  }

  /** What the handler returns is proper, and whatever it leaves live continues the executions. */
  lemma ResultIsProper(log: seq<Execution>, b: Busy, end: int, interrupted: bool)
    requires log != [] && log[|log| - 1] == ExecutionOf(b.job, b.now, b.oracle) && b.job.available - LEASE <= b.now <= end
    ensures Proper(b.job, BusyResult(b, end, interrupted)) && Continued(log, b.job, BusyResult(b, end, interrupted))
  {
  }

  lemma StillInHand(rows: Jobs, hand: map<Id, int>, log: map<Id, seq<Execution>>, m: Id, rows': Jobs)
    requires HandOk(rows, hand, log) && m !in hand && rows.Keys <= rows'.Keys
    requires forall q :: q in rows && q != m ==> rows'[q] == rows[q]
    ensures HandOk(rows', hand, log)
  {
  }

  lemma RetryKeeps(s: State, end: int, now: int)
    requires Inv(s) && Enabled(s, Retry(end, now))
    ensures Inv(After(s, Retry(end, now)))
  {
    var b := s.busy.value;
    RetryChanges(s.rows, s.told, s.past, s.log, b, end, now);
    StillInHand(s.rows, s.hand, s.log, b.m, RetriedRows(s.rows, b.m, end, now));
  }

  lemma RetryChanges(rows: Jobs, events: seq<Event>, p: Past, log: map<Id, seq<Execution>>, b: Busy, end: int, now: int)
    requires InOrder(rows, events, p) && Traced(rows, p, log) && BusyOk(rows, Some(b), map[], log) && b.now <= end
    ensures var rows' := RetriedRows(rows, b.m, end, now);
            InOrder(rows', events, p.(current := Unfinished(rows', p))) && Traced(rows', p.(current := Unfinished(rows', p)), log)
  {
    var rows' := RetriedRows(rows, b.m, end, now);
    RelabellingKeepsOrder(rows, rows', events, p);
    RetryTraced(rows, p, log, b, end, now);
  }

  lemma RetryTraced(rows: Jobs, p: Past, log: map<Id, seq<Execution>>, b: Busy, end: int, now: int)
    requires OneLive(rows, p) && Traced(rows, p, log) && BusyOk(rows, Some(b), map[], log) && b.now <= end
    ensures var rows' := RetriedRows(rows, b.m, end, now); Traced(rows', p.(current := Unfinished(rows', p)), log)
  {
    var op, rows' := b.job.op, RetriedRows(rows, b.m, end, now);
    assert p.current[op] == b.m && NextUp(log[op], rows[b.m]);
    OneTraced(rows, p, log, rows', p.(current := Unfinished(rows', p)), log, op);
  }

  lemma CleanKeeps(s: State, gone: set<Id>)
    requires Inv(s) && Enabled(s, Clean(gone))
    ensures Inv(After(s, Clean(gone)))
  {
    var rows', p' := s.rows - gone, s.past.(cleaned := s.past.cleaned + gone);
    assert forall m :: m in rows' <==> m in s.rows && m !in gone;
    assert InOrder(rows', s.told, p');
    assert Traced(rows', p', s.log);
  }

  lemma StepKeepsInv(s: State, step: Step)
    requires Inv(s) && Enabled(s, step)
    ensures Inv(After(s, step))
  {
    match step
    case Start(_, _, _, _) => StartKeeps(s, step);
    case EndLeases(_) => StatusKeeps(s, step);
    case ExpireAll(_) => StatusKeeps(s, step);
    case Take(m, now) => LeaseKeeps(s, m, now);
    case Perform(m, now, oracle) => ExecuteKeeps(s, m, now, oracle);
    case Complete(_, _, _, _) => CompleteKeeps(s, step);
    case Retry(end, now) => RetryKeeps(s, end, now);
    case Drop =>
    case Crash =>
    case Clean(gone) => CleanKeeps(s, gone);
    case CleanEvents(_) =>
  }

  lemma {:induction false} RunKeepsInv(states: seq<State>, steps: seq<Step>, n: nat)
    requires Run(states, steps) && states[0] == INITIAL && n <= |steps|
    ensures Inv(states[n])
  {
    if n > 0 {
      RunKeepsInv(states, steps, n - 1);
      assert Happens(states, steps, n - 1);
      StepKeepsInv(states[n - 1], steps[n - 1]);
    }
  }

  predicate LiveFor(rows: Jobs, m: Id) {
    m in rows && rows[m].status.Live()
  }

  /**
   * In every state of every run: each unfinished operation has exactly one live message and a finished one has
   * none, and a message is applied exactly if its successor or the end of its operation was recorded with it.
   */
  lemma ChainIsAtomic(states: seq<State>, steps: seq<Step>, n: nat, a: Id, b: Id)
    requires Run(states, steps) && states[0] == INITIAL && n <= |steps|
    ensures InOrder(states[n].rows, states[n].told, states[n].past)
    ensures LiveFor(states[n].rows, a) && LiveFor(states[n].rows, b) && states[n].rows[a].op == states[n].rows[b].op ==> a == b
  {
    RunKeepsInv(states, steps, n);
  }

  /** Whatever is interrupted, refused or lost on the way, no operation is executed more than 1154 times. */
  lemma OperationsTerminate(states: seq<State>, steps: seq<Step>, n: nat, op: Id)
    requires Run(states, steps) && states[0] == INITIAL && n <= |steps| && op in states[n].past.started
    ensures op in states[n].log && |states[n].log[op]| <= 1154 && CountedLaunches(states[n].log[op]) <= MAX_RUNS
  {
    RunKeepsInv(states, steps, n);
    var log := states[n].log;
    assert LogOk(log[op]);
    if log[op] != [] { NewInstallationTerminates(log[op]); }
  }
}
