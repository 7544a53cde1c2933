/**
 * The server's worker: each method is a sequence of steps of the work chain and may stop between any two
 * of them, so what the chain keeps in every reachable state holds after every method, however it ended.
 * Its messages are rows of the message queue, and its statements are the queue's.
 */
module ServerWorker {
  import opened Ids
  import opened Numbers
  import opened Wrappers
  import opened WorkChain
  import AwgInstall
  import Queue = MessageQueue

  const SERVER: Id := "server"
  const BATCH := 10

  // ---------------------------------------------------------------- the messages as rows of the queue

  function StepName(step: AwgInstall.Step): string {
    match step
    case Prepare => "awg.install.prepare" case Launch => "awg.install.launch" case Poll => "awg.install.poll"
    case Handoff => "awg.install.handoff" case Register => "awg.install.register" case Agent => "awg.install.agent"
    case Verify => "awg.install.verify" case WaitAgent => "awg.install.wait_agent" case Finish => "awg.install.done"
    case Unknown => ""
  }

  function AsMessage(j: Job): Queue.Message {
    Queue.Message(StepName(j.step), j.status, j.available, Some(j.expires), 0, "", "", "")
  }

  /** The outbox of the server as the queue sees it. */
  function Outbox(rows: Jobs): Queue.Table {
    map m | m in rows :: Queue.Key(SERVER, m) := AsMessage(rows[m])
  }

  function KeysOf(batch: seq<Id>): seq<Queue.Key> {
    seq(|batch|, i requires 0 <= i < |batch| => Queue.Key(SERVER, batch[i]))
  }

  ghost predicate Distinct(ids: seq<Id>) {
    forall i, j :: 0 <= i < j < |ids| ==> ids[i] != ids[j]
  }

  ghost predicate Unused(ids: seq<Id>, used: set<Id>) {
    forall id :: id in ids ==> id !in used
  }

  lemma UnusedStep(supply: seq<Id>, i: nat, used: set<Id>)
    requires i < |supply| && Distinct(supply) && Unused(supply[i..], used)
    ensures supply[i] !in used && Unused(supply[i + 1..], used + {supply[i]})
  {
    assert supply[i..] == [supply[i]] + supply[i + 1..];
  }

  /** The messages after so many statements of `RequeueExpiredLeases`. */
  function Requeued(rows: Jobs, now: int, accepted: nat): Jobs {
    if accepted == 0 then rows else if accepted == 1 then LeasesEnded(rows, now) else ExpiredOnes(LeasesEnded(rows, now), now)
  }

  function OpsOf(rows: Jobs, batch: seq<Id>): seq<Id>
    requires forall i :: 0 <= i < |batch| ==> batch[i] in rows
  {
    seq(|batch|, i requires 0 <= i < |batch| => rows[batch[i]].op)
  }

  /** A statement that does to every message what a step of the queue does to its row is that step. */
  lemma StatementIsStep(rows: Jobs, rows': Jobs, step: Queue.Step)
    requires rows'.Keys == rows.Keys && !step.Write?
    requires forall m :: m in rows ==> Queue.OnRow(step, Queue.Key(SERVER, m), AsMessage(rows[m])) == Some(AsMessage(rows'[m]))
    ensures Outbox(rows') == Queue.After(Outbox(rows), step)
  {
    forall k ensures k in Queue.After(Outbox(rows), step) <==> k in Outbox(rows') {
      if k in Outbox(rows) || k in Outbox(rows') { assert k == Queue.Key(SERVER, k.id) && k.id in rows; }
    }
    forall k | k in Outbox(rows') ensures Queue.After(Outbox(rows), step)[k] == Outbox(rows')[k] {
      assert k == Queue.Key(SERVER, k.id) && k.id in rows;
    }
  }

  lemma RequeueUsesQueue(rows: Jobs, now: int)
    ensures Outbox(LeasesEnded(rows, now)) == Queue.After(Outbox(rows), Queue.Requeue(SERVER, now))
    ensures Outbox(ExpiredOnes(rows, now)) == Queue.After(Outbox(rows), Queue.Expire(SERVER, now))
  {
    StatementIsStep(rows, LeasesEnded(rows, now), Queue.Requeue(SERVER, now));
    StatementIsStep(rows, ExpiredOnes(rows, now), Queue.Expire(SERVER, now));
  }

  /** Afterwards no live message has expired, and no lease has ended. */
  lemma RequeueIsThorough(rows: Jobs, now: int)
    ensures var rows' := ExpiredOnes(LeasesEnded(rows, now), now);
            forall m :: m in rows' && rows'[m].status.Live() ==> now < rows'[m].expires && (rows'[m].status.InFlight? ==> now < rows'[m].available)
  {
  }

  function LeasedRows(rows: Jobs, batch: seq<Id>, now: int): Jobs {
    map m | m in rows :: if m in batch then rows[m].(status := Queue.InFlight, available := now + LEASE) else rows[m]
  }

  lemma SameOps(rows: Jobs, rows1: Jobs, batch: seq<Id>, now: int)
    requires rows1.Keys == rows.Keys && (forall m :: m in rows ==> rows1[m].op == rows[m].op) && forall i :: 0 <= i < |batch| ==> batch[i] in rows
    ensures forall i :: 0 <= i < |batch| ==> batch[i] in LeasedRows(rows1, batch, now)
    ensures OpsOf(LeasedRows(rows1, batch, now), batch) == OpsOf(rows, batch)
  {
  }

  function HandOf(batch: seq<Id>, now: int): map<Id, int> {
    map m | m in batch :: now
  }

  lemma LeaseNext(rows: Jobs, batch: seq<Id>, i: nat, now: int)
    requires i < |batch| && batch[i] in rows && Distinct(batch)
    ensures LeasedRows(rows, batch[..i], now)[batch[i]] == rows[batch[i]]
    ensures LeasedRows(rows, batch[..i + 1], now) == Relabelled(LeasedRows(rows, batch[..i], now), batch[i], Queue.InFlight, now + LEASE)
    ensures HandOf(batch[..i + 1], now) == HandOf(batch[..i], now)[batch[i] := now]
  {
    assert batch[..i + 1] == batch[..i] + [batch[i]];
  }

  lemma LeaseUsesQueue(rows: Jobs, batch: seq<Id>, now: int)
    ensures Outbox(LeasedRows(rows, batch, now)) == Queue.After(Outbox(rows), Queue.Lease(KeysOf(batch), now, now + LEASE))
  {
    forall m | m in rows ensures Queue.Key(SERVER, m) in KeysOf(batch) <==> m in batch {
      if m in batch {
        var i :| 0 <= i < |batch| && batch[i] == m;
        assert KeysOf(batch)[i] == Queue.Key(SERVER, m);
      }
    }
    StatementIsStep(rows, LeasedRows(rows, batch, now), Queue.Lease(KeysOf(batch), now, now + LEASE));
  }

  lemma RetryUsesQueue(rows: Jobs, m: Id, end: int, now: int)
    requires m in rows
    ensures Outbox(RetriedRows(rows, m, end, now)) ==
            Queue.After(Outbox(rows), Queue.MarkFailed(m, "", Some(end + AwgInstall.RETRY_WAIT), now))
  {
    StatementIsStep(rows, RetriedRows(rows, m, end, now), Queue.MarkFailed(m, "", Some(end + AwgInstall.RETRY_WAIT), now));
  }

  /** A completion writes the successor, if there is one, and then marks the message done or failed. */
  function Enqueued(rows: Jobs, r: Report, id: Id): Jobs {
    if r.next.Some? then rows[id := r.next.value] else rows
  }

  function Mark(m: Id, r: Report, now: int): Queue.Step {
    if r.applied then Queue.MarkDone(m, Queue.Applied, "", "") else Queue.MarkFailed(m, "", r.retryAt, now)
  }

  lemma CompletionUsesQueue(rows: Jobs, m: Id, r: Report, id: Id, now: int)
    requires m in rows && id !in rows
    ensures r.next.Some? ==>
              Outbox(Enqueued(rows, r, id)) == Queue.After(Outbox(rows), Queue.Write(Queue.Key(SERVER, id), AsMessage(r.next.value), true))
    ensures Outbox(CompletedRows(rows, m, r, id, now)) == Queue.After(Outbox(Enqueued(rows, r, id)), Mark(m, r, now))
  {
    if r.next.Some? { SuccessorIsWritten(rows, id, r.next.value); }
    StatementIsStep(Enqueued(rows, r, id), CompletedRows(rows, m, r, id, now), Mark(m, r, now));
  }

  lemma SuccessorIsWritten(rows: Jobs, id: Id, j: Job)
    requires id !in rows
    ensures Outbox(rows[id := j]) == Queue.After(Outbox(rows), Queue.Write(Queue.Key(SERVER, id), AsMessage(j), true))
  {
    var t, t' := Queue.After(Outbox(rows), Queue.Write(Queue.Key(SERVER, id), AsMessage(j), true)), Outbox(rows[id := j]);
    forall k | k in t' ensures k in t && t[k] == t'[k] {
      assert k == Queue.Key(SERVER, k.id) && (k.id == id || k.id in rows);
    }
    forall k | k in t ensures k in t' {
      assert k == Queue.Key(SERVER, k.id) && (k.id == id || k.id in rows);
    }
  }

  // ---------------------------------------------------------------- executions

  type Log = map<Id, seq<AwgInstall.Execution>>

  /** The operation was executed once more. */
  ghost predicate OneMore(a: Log, b: Log, op: Id) {
    op in a && op in b && a[op] < b[op] && |b[op]| == |a[op]| + 1
  }

  ghost predicate NoMore(a: Log, b: Log, op: Id) {
    op in a && op in b && a[op] == b[op]
  }

  /** Of the leased messages, the first i are executed, each once, and nothing else is. */
  ghost predicate Progress(a: Log, b: Log, ops: seq<Id>, i: nat)
    requires i <= |ops|
  {
    && (forall k :: 0 <= k < i ==> OneMore(a, b, ops[k]))
    && (forall op :: op in a && op !in ops[..i] ==> NoMore(a, b, op))
  }

  lemma ProgressStep(a: Log, b: Log, c: Log, ops: seq<Id>, i: nat)
    requires i < |ops| && Progress(a, b, ops, i) && Distinct(ops)
    requires ops[i] in a && OneMore(b, c, ops[i]) && forall op :: op in b && op != ops[i] ==> NoMore(b, c, op)
    ensures Progress(a, c, ops, i + 1)
  {
    assert ops[..i + 1] == ops[..i] + [ops[i]];
    forall k | 0 <= k < i ensures OneMore(a, c, ops[k]) {
      assert OneMore(a, b, ops[k]) && NoMore(b, c, ops[k]);
    }
  }

  /** The others are in hand, and belong to operations that are still to be executed. */
  ghost predicate Waiting(rows: Jobs, hand: map<Id, int>, batch: seq<Id>, ops: seq<Id>, i: nat, now: int)
    requires i <= |batch| == |ops|
  {
    && (forall m :: m in hand ==> m in batch[i..])
    && (forall k :: i <= k < |batch| ==> batch[k] in hand && hand[batch[k]] <= now && batch[k] in rows && rows[batch[k]].op == ops[k])
  }

  lemma WaitingStep(rows: Jobs, hand: map<Id, int>, rows': Jobs, batch: seq<Id>, ops: seq<Id>, i: nat, now: int)
    requires i < |batch| == |ops| && Distinct(batch) && Waiting(rows, hand, batch, ops, i, now)
    requires forall q :: q in hand && q != batch[i] && q in rows ==> q in rows' && rows'[q] == rows[q]
    ensures Waiting(rows', hand - {batch[i]}, batch, ops, i + 1, now)
  {
    assert batch[i..] == [batch[i]] + batch[i + 1..];
  }

  lemma NoneWaits(rows: Jobs, hand: map<Id, int>, batch: seq<Id>, ops: seq<Id>, now: int)
    requires |batch| == |ops| && Waiting(rows, hand, batch, ops, |batch|, now)
    ensures hand == map[]
  {
  }

  lemma WaitingAll(rows: Jobs, batch: seq<Id>, now: int)
    requires forall i :: 0 <= i < |batch| ==> batch[i] in rows
    ensures Waiting(rows, HandOf(batch, now), batch, OpsOf(rows, batch), 0, now)
  {
    assert batch[0..] == batch;
  }

  /** A message that was handled leaves all others as they were. */
  lemma OthersStay(rows: Jobs, m: Id, r: Report, id: Id, done: int, end: int, later: int)
    requires m in rows && id !in rows
    ensures forall q :: q in rows && q != m ==> q in CompletedRows(rows, m, r, id, done) && CompletedRows(rows, m, r, id, done)[q] == rows[q]
    ensures forall q :: q in rows && q != m ==> q in RetriedRows(rows, m, end, later) && RetriedRows(rows, m, end, later)[q] == rows[q]
  {
  }

  // ---------------------------------------------------------------- the worker

  class Worker {
    var rows: Jobs
    var events: seq<Event>
    ghost var rest: State      // the worker's memory and the history
    ghost var states: seq<State>
    ghost var steps: seq<WorkChain.Step>

    constructor ()
      ensures Valid() && Resting(Abstract()) && rows == map[] && events == []
    {
      rows, events, rest, states, steps := map[], [], INITIAL, [INITIAL], [];
    }

    ghost function Abstract(): State
      reads this
    {
      rest.(rows := rows, events := events)
    }

    ghost predicate Valid()
      reads this
    {
      Run(states, steps) && states[0] == INITIAL && states[|steps|] == Abstract()
    }

    /** Notes that the databases have just taken a step of the machine. */
    ghost method Record(step: WorkChain.Step)
      requires Run(states, steps) && states[0] == INITIAL && Enabled(states[|steps|], step)
      requires After(states[|steps|], step).rows == rows && After(states[|steps|], step).events == events
      modifies this`rest, this`states, this`steps
      ensures Valid() && Abstract() == old(After(states[|steps|], step))
    {
      RunExtends(states, steps, step);
      var next := After(states[|steps|], step);
      rest, states, steps := next, states + [next], steps + [step];
    }

    /** Whatever the worker went through, the chain is in order and no operation is executed without end. */
    lemma WhatHolds()
      requires Valid()
      ensures Inv(Abstract())
      ensures forall op :: op in rest.past.started ==> op in rest.log && |rest.log[op]| <= 1154
    {
      RunKeepsInv(states, steps, |steps|);
      forall op | op in rest.past.started ensures op in rest.log && |rest.log[op]| <= 1154 {
        OperationsTerminate(states, steps, |steps|, op);
      }
    }

    /** Messages in hand are in flight, and belong to different operations. */
    lemma InHand(m: Id)
      requires Valid() && m in rest.hand
      ensures m in rows && rows[m].status.InFlight? && rows[m].op in rest.log && rows[m].available == rest.hand[m] + LEASE
      ensures forall q :: q in rest.hand && q != m ==> q in rows && rows[q].op != rows[m].op
    {
      RunKeepsInv(states, steps, |steps|);
    }

    /** A new operation starts with one pending message, ninety minutes before its deadline. */
    method Start(op: Id, state: AwgInstall.Install, id: Id, now: int)
      requires Valid() && Enabled(Abstract(), WorkChain.Start(op, state, id, now))
      modifies this
      ensures Valid() && Abstract() == old(After(Abstract(), WorkChain.Start(op, state, id, now)))
    {
      rows := rows[id := JobFor(op, AwgInstall.Prepare, state, now)];
      Record(WorkChain.Start(op, state, id, now));
    }

    /** `RequeueExpiredLeases` for the server: leases end, then expired operations end; so many statements are accepted. */
    method Requeue(now: int, accepted: nat) returns (done: bool)
      requires Valid() && Resting(Abstract())
      modifies this
      ensures Valid() && Resting(Abstract()) && rest.log == old(rest.log) && rest.past == old(rest.past).(current := rest.past.current)
      ensures rows.Keys == old(rows.Keys) && forall m :: m in rows ==> rows[m].op == old(rows)[m].op
      ensures done <==> accepted >= 2
      ensures rows == Requeued(old(rows), now, accepted)
      ensures done ==> forall m :: m in rows && rows[m].status.Live() ==>
                now < rows[m].expires && (rows[m].status.InFlight? ==> now < rows[m].available)
    {
      if accepted == 0 { return false; }
      EndLeases(now);
      if accepted == 1 { return false; }
      ExpireAll(now);
      RequeueIsThorough(old(rows), now);
      return true;
    }

    method EndLeases(now: int)
      requires Valid() && Resting(Abstract())
      modifies this
      ensures Valid() && Resting(Abstract()) && rows == LeasesEnded(old(rows), now) && events == old(events)
      ensures rest.log == old(rest.log) && rest.past == old(rest.past).(current := rest.past.current)
    {
      rows := LeasesEnded(rows, now);
      Record(WorkChain.EndLeases(now));
    }

    method ExpireAll(now: int)
      requires Valid() && Resting(Abstract())
      modifies this
      ensures Valid() && Resting(Abstract()) && rows == ExpiredOnes(old(rows), now) && events == old(events)
      ensures rest.log == old(rest.log) && rest.past == old(rest.past).(current := rest.past.current)
    {
      rows := ExpiredOnes(rows, now);
      Record(WorkChain.ExpireAll(now));
    }

    /** The first ten due messages of the server's outbox, as the queue selects them. */
    method DueBatch(now: int) returns (batch: seq<Id>)
      ensures Queue.FirstLeasable(Outbox(rows), SERVER, now, BATCH, KeysOf(batch))
      ensures Distinct(batch)
      ensures forall i :: 0 <= i < |batch| ==> batch[i] in rows && Due(rows[batch[i]], now)
    {
      var table := new Queue.MessageTable.Of(Outbox(rows));
      var keys := table.SelectLeasable(SERVER, now, BATCH);
      batch := seq(|keys|, i requires 0 <= i < |keys| => keys[i].id);
      assert KeysOf(batch) == keys;
      forall i, j | 0 <= i < j < |batch| ensures batch[i] != batch[j] {
        assert Queue.Sooner(Outbox(rows), keys[i], keys[j]);
        Irreflexive(batch[i]);
      }
      forall i | 0 <= i < |batch| ensures batch[i] in rows && Due(rows[batch[i]], now) {
        assert Queue.Candidate(Outbox(rows), SERVER, now, keys[i]);
      }
    }

    /** `LeasePending`: they are taken in hand, unless the transaction is refused. */
    method LeaseBatch(now: int, refuses: bool) returns (batch: seq<Id>)
      requires Valid() && Resting(Abstract())
      modifies this
      ensures Valid() && rest.busy.None? && rest.past == old(rest.past) && rest.log == old(rest.log) && events == old(events)
      ensures |batch| <= BATCH && Distinct(batch)
      ensures forall i :: 0 <= i < |batch| ==> batch[i] in old(rows)
      ensures rows == LeasedRows(old(rows), batch, now) && rest.hand == HandOf(batch, now)
      ensures if refuses then batch == [] else Queue.FirstLeasable(old(Outbox(rows)), SERVER, now, 10, KeysOf(batch))
      ensures Outbox(rows) == Queue.After(old(Outbox(rows)), Queue.Lease(KeysOf(batch), now, now + LEASE))
    {
      batch := [];
      if !refuses { batch := DueBatch(now); }
      for i := 0 to |batch|
        invariant Valid() && rest.busy.None? && rest.past == old(rest.past) && rest.log == old(rest.log) && events == old(events)
        invariant rows == LeasedRows(old(rows), batch[..i], now) && rest.hand == HandOf(batch[..i], now)
      {
        LeaseNext(old(rows), batch, i, now);
        TakeOne(batch[i], now);
      }
      assert batch[..|batch|] == batch;
      LeaseUsesQueue(old(rows), batch, now);
    }

    method TakeOne(m: Id, now: int)
      requires Valid() && rest.busy.None? && m in rows && Due(rows[m], now)
      modifies this
      ensures Valid() && rows == Relabelled(old(rows), m, Queue.InFlight, now + LEASE) && events == old(events)
      ensures rest.hand == old(rest.hand)[m := now] && rest.busy.None? && rest.past == old(rest.past) && rest.log == old(rest.log)
    {
      rows := Relabelled(rows, m, Queue.InFlight, now + LEASE);
      Record(Take(m, now));
    }

    /** `Complete`: one transaction over successor, event and message; a refused statement undoes all of it. */
    method Complete(m: Id, r: Report, id: Id, ghost end: int, now: int, ghost interrupted: bool, refuses: bool)
      requires Valid() && Enabled(Abstract(), WorkChain.Complete(id, end, now, interrupted))
      requires m == rest.busy.value.m && r == BusyResult(rest.busy.value, end, interrupted)
      modifies this
      ensures Valid() && Abstract() == if refuses then old(Abstract()) else old(Recorded(Abstract(), m, r, id, now))
    {
      var newRows, newEvents := rows, events;
      if r.next.Some? {
        newRows := newRows[id := r.next.value];
      }
      if r.event.Some? {
        newEvents := newEvents + [Event(m, rows[m].op, r.event.value)];
      }
      newRows := newRows[m := rows[m].(status := StatusAfter(r, now),
                                       available := if r.applied then rows[m].available
                                                    else if r.retryAt.Some? then r.retryAt.value else now)];
      if refuses { return; }
      rows, events := newRows, newEvents;
      Record(WorkChain.Complete(id, end, now, interrupted));
    }

    /** After a refused completion the message is put off, unless that is refused as well. */
    method RetryLater(m: Id, end: int, now: int, refuses: bool)
      requires Valid() && Enabled(Abstract(), Retry(end, now)) && m == rest.busy.value.m
      modifies this
      ensures Valid() && Abstract() == if refuses then old(After(Abstract(), Drop)) else old(After(Abstract(), Retry(end, now)))
    {
      if refuses {
        Record(Drop);
        return;
      }
      rows := RetriedRows(rows, m, end, now);
      Record(Retry(end, now));
    }

    /**
     * `handle`: executes the step at `now` until `end` and completes it at `done`; if that is refused it arranges,
     * at `later`, for a retry ten seconds after `failed`. An interrupted execution whose completion comes after its
     * own retry time ends the operation.
     */
    method Handle(m: Id, id: Id, now: int, end: int, done: int, failed: int, later: int, oracle: AwgInstall.Oracle, interrupted: bool,
                  refuses: bool, refusesRetry: bool)
      requires Valid() && rest.busy.None? && m in rest.hand && rest.hand[m] <= now <= end <= failed && id !in rest.past.used
      modifies this
      ensures Valid() && rest.busy.None? && rest.hand == old(rest.hand) - {m} && m in old(rows)
      ensures rest.past.used <= old(rest.past.used) + {id} && rest.past.started == old(rest.past.started)
      ensures old(rows)[m].op in old(rest.log)
      ensures var j := old(rows)[m];
              rest.log == old(rest.log)[j.op := old(rest.log)[j.op] + [ExecutionOf(j, now, oracle)]]
      ensures !refuses ==>
                var r := ResultOf(old(rows)[m], now, end, oracle, interrupted);
                rows == CompletedRows(old(rows), m, r, id, done) && events == CompletedEvents(old(rows), old(events), m, r)
      ensures refuses ==> events == old(events) && rows == if refusesRetry then old(rows) else RetriedRows(old(rows), m, failed, later)
    {
      InHand(m);
      var r := ResultOf(rows[m], now, end, oracle, interrupted);
      Record(Perform(m, now, oracle));
      Complete(m, r, id, end, done, interrupted, refuses);
      if refuses {
        RetryLater(m, failed, later, refusesRetry);
      }
    }

    /** `handle` at some time after the lease, whatever the host answers. */
    method HandleNext(m: Id, id: Id, leasedAt: int)
      requires Valid() && rest.busy.None? && m in rest.hand && rest.hand[m] <= leasedAt && id !in rest.past.used
      modifies this
      ensures Valid() && rest.busy.None? && rest.hand == old(rest.hand) - {m} && m in old(rows)
      ensures rest.past.used <= old(rest.past.used) + {id} && rest.past.started == old(rest.past.started)
      ensures OneMore(old(rest.log), rest.log, old(rows)[m].op)
      ensures forall op :: op in old(rest.log) && op != old(rows)[m].op ==> NoMore(old(rest.log), rest.log, op)
      ensures forall q :: q in rest.hand ==> q in rows && q in old(rows) && rows[q] == old(rows)[q] && rows[q].op != old(rows)[m].op
    {
      var wait: nat, duration: nat, delay: nat := *, *, *;
      var done: int, later: int, oracle: AwgInstall.Oracle, interrupted: bool := *, *, *, *;
      var refuses: bool, refusesRetry: bool := *, *;
      var now := leasedAt + wait;
      InHand(m);
      ghost var r := ResultOf(rows[m], now, now + duration, oracle, interrupted);
      FreshId(id);
      Handle(m, id, now, now + duration, done, now + duration + delay, later, oracle, interrupted, refuses, refusesRetry);
      OthersStay(old(rows), m, r, id, done, now + duration + delay, later);
    }

    lemma FreshId(id: Id)
      requires Valid() && id !in rest.past.used
      ensures id !in rows
    {
      RunKeepsInv(states, steps, |steps|);
    }

    /** The process ends, and forgets what it had in hand. */
    method Stop()
      requires Valid()
      modifies this
      ensures Valid() && Resting(Abstract()) && rows == old(rows) && events == old(events)
      ensures rest.log == old(rest.log) && rest.past == old(rest.past)
    {
      Record(Crash);
    }

    /** One more message of the batch is handled. */
    method HandleOne(batch: seq<Id>, ghost ops: seq<Id>, i: nat, supply: seq<Id>, now: int, ghost log: Log)
      requires Valid() && rest.busy.None? && i < |batch| == |ops| <= |supply| && Distinct(batch) && Distinct(ops) && Distinct(supply)
      requires Unused(supply[i..], rest.past.used)
      requires Waiting(rows, rest.hand, batch, ops, i, now) && Progress(log, rest.log, ops, i) && ops[i] in log
      modifies this
      ensures Valid() && rest.busy.None? && Unused(supply[i + 1..], rest.past.used) && rest.past.started == old(rest.past.started)
      ensures Waiting(rows, rest.hand, batch, ops, i + 1, now) && Progress(log, rest.log, ops, i + 1)
    {
      UnusedStep(supply, i, rest.past.used);
      HandleNext(batch[i], supply[i], now);
      ProgressStep(log, old(rest.log), rest.log, ops, i);
      WaitingStep(old(rows), old(rest.hand), rows, batch, ops, i, now);
    }

    /** The messages in hand are handled one after the other, until the worker stops. */
    method WorkOff(batch: seq<Id>, ghost ops: seq<Id>, now: int, supply: seq<Id>, stop: nat)
      requires Valid() && rest.busy.None? && |batch| == |ops| <= |supply| && Distinct(batch) && Distinct(ops) && Distinct(supply)
      requires Waiting(rows, rest.hand, batch, ops, 0, now) && forall i :: 0 <= i < |ops| ==> ops[i] in rest.log
      requires Unused(supply, rest.past.used)
      modifies this
      ensures Valid() && Resting(Abstract()) && rest.past.started == old(rest.past.started)
      ensures Progress(old(rest.log), rest.log, ops, Min(stop, |batch|))
    {
      assert supply[0..] == supply;
      for i := 0 to |batch|
        invariant i <= stop && Valid() && rest.busy.None? && rest.past.started == old(rest.past.started)
        invariant Unused(supply[i..], rest.past.used)
        invariant Waiting(rows, rest.hand, batch, ops, i, now) && Progress(old(rest.log), rest.log, ops, i)
      {
        if i == stop {
          Stop();
          return;
        }
        HandleOne(batch, ops, i, supply, now, old(rest.log));
      }
      NoneWaits(rows, rest.hand, batch, ops, now);
    }

    lemma BatchReady(batch: seq<Id>, now: int)
      requires Valid() && rest.hand == HandOf(batch, now) && Distinct(batch) && forall i :: 0 <= i < |batch| ==> batch[i] in rows
      ensures var ops := OpsOf(rows, batch);
              Distinct(ops) && Waiting(rows, rest.hand, batch, ops, 0, now) && forall i :: 0 <= i < |ops| ==> ops[i] in rest.log
    {
      forall i, j | 0 <= i < j < |batch| ensures rows[batch[i]].op != rows[batch[j]].op { InHand(batch[i]); }
      forall i | 0 <= i < |batch| ensures rows[batch[i]].op in rest.log { InHand(batch[i]); }
      WaitingAll(rows, batch, now);
    }

    /**
     * `runOnce`: ended leases return, the first due messages are leased, and they are handled one after the
     * other. Unless the worker stops, each of them is executed exactly once, and no other operation is. `accepted`
     * is the number of requeue statements that go through, and `stop` the number of messages before the worker stops.
     */
    method RunOnce(now: int, supply: seq<Id>, accepted: nat, refuses: bool, stop: nat) returns (batch: seq<Id>)
      requires Valid() && Resting(Abstract()) && |supply| == BATCH && Distinct(supply)
      requires Unused(supply, rest.past.used)
      modifies this
      ensures Valid() && Resting(Abstract()) && rest.past.started == old(rest.past.started)
      ensures |batch| <= BATCH && Distinct(batch) && forall i :: 0 <= i < |batch| ==> batch[i] in old(rows)
      ensures if refuses then batch == []
              else Queue.FirstLeasable(Outbox(Requeued(old(rows), now, accepted)), SERVER, now, 10, KeysOf(batch))
      ensures Progress(old(rest.log), rest.log, OpsOf(old(rows), batch), Min(stop, |batch|))
    {
      var requeued := Requeue(now, accepted);
      ghost var rows1 := rows;
      batch := LeaseBatch(now, refuses);
      SameOps(old(rows), rows1, batch, now);
      BatchReady(batch, now);
      WorkOff(batch, OpsOf(rows, batch), now, supply, stop);
    }

    /** Cleanup of the delivered and expired events. */
    method CleanEvents(kept: seq<Event>)
      requires Valid() && forall e :: e in kept ==> e in events
      modifies this
      ensures Valid() && events == kept && rows == old(rows) && rest.told == old(rest.told)
    {
      events := kept;
      Record(WorkChain.CleanEvents(kept));
    }

    /** Cleanup deletes finished messages only. */
    method Clean(gone: set<Id>)
      requires Valid() && forall m :: m in gone && m in rows ==> !rows[m].status.Live()
      modifies this
      ensures Valid() && rows == old(rows) - gone && events == old(events)
    {
      rows := rows - gone;
      Record(WorkChain.Clean(gone));
    }
  }
}
