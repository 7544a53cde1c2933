/**
 * The agent's outbox of usage batches is a table of the message queue: every statement that the agent
 * issues on that table is a run of the usage machine.
 */
module UsageOutbox {
  import opened Ids
  import opened Wrappers
  import opened UsageLedger
  import opened UsageMachine
  import Queue = MessageQueue

  const REDACTED := "{}"

  type Decoder = string -> Payload

  function StatusOf(status: Queue.Status): Option<Status> {
    match status
    case Pending => Some(Pending)
    case InFlight => Some(InFlight)
    case Acked => Some(Acked)
    case Failed => Some(Failed)
    case _ => None
  }

  /** A row of the table and the machine's message: same status, same payload until it is redacted, no expiry. */
  predicate Shows(decode: Decoder, row: Queue.Message, m: Message) {
    && StatusOf(row.status) == Some(m.status) && row.expires.None?
    && m.payload == if row.payload == REDACTED then None else Some(decode(row.payload))
  }

  /** The machine's outbox is the table of one agent. */
  ghost predicate Views(decode: Decoder, t: Queue.Table, actor: Id, outbox: map<Id, Message>) {
    && (forall k :: k in t ==> k.actor == actor && k.id in outbox)
    && (forall r :: r in outbox ==> Queue.Key(actor, r) in t && Shows(decode, t[Queue.Key(actor, r)], outbox[r]))
  }

  // ---------------------------------------------------------------- statements over many rows

  datatype Bulk = Leasing | Requeueing | Deleting | Redacting

  function StepOf(b: Bulk, f: Flush, r: Id): Step {
    match b
    case Leasing => Lease(f, r)
    case Requeueing => Requeue(r)
    case Deleting => CleanOutbox(r)
    case Redacting => Redact(r)
  }

  predicate Applies(b: Bulk, m: Message) {
    match b
    case Leasing => m.status.Pending?
    case Requeueing => m.status.InFlight?
    case _ => !m.Live()
  }

  function Made(b: Bulk, m: Message): Message {
    match b
    case Leasing => m.(status := InFlight)
    case Requeueing => m.(status := Pending)
    case Deleting => m
    case Redacting => m.(payload := None)
  }

  function Bulked(b: Bulk, outbox: map<Id, Message>, rs: set<Id>): map<Id, Message> {
    map r | r in outbox && !(b.Deleting? && r in rs) :: if r in rs then Made(b, outbox[r]) else outbox[r]
  }

  /** A statement over many rows is a run over them, one after the other. */
  lemma {:induction false} BulkIsRun(s: State, f: Flush, b: Bulk, rs: set<Id>) returns (s': State)
    requires forall r :: r in rs ==> r in s.outbox && Applies(b, s.outbox[r])
    ensures Leads(s, s') && s'.outbox == Bulked(b, s.outbox, rs)
    decreases |rs|
  {
    LeadsNowhere(s);
    s' := s;
    if rs != {} {
      var r :| r in rs;
      var s1 := BulkIsRun(s, f, b, rs - {r});
      BulkedMore(b, s.outbox, rs - {r}, r);
      OneOfMany(s1, f, b, r);
      s' := After(s1, StepOf(b, f, r));
      LeadsFurther(s, s1, StepOf(b, f, r));
      assert rs - {r} + {r} == rs;
    }
  }

  function OneMade(b: Bulk, outbox: map<Id, Message>, r: Id): map<Id, Message>
    requires r in outbox
  {
    if b.Deleting? then outbox - {r} else outbox[r := Made(b, outbox[r])]
  }

  lemma BulkedMore(b: Bulk, outbox: map<Id, Message>, rs: set<Id>, r: Id)
    requires r in outbox && r !in rs
    ensures r in Bulked(b, outbox, rs) && Bulked(b, outbox, rs)[r] == outbox[r]
    ensures Bulked(b, outbox, rs + {r}) == OneMade(b, Bulked(b, outbox, rs), r)
  {
  }

  lemma OneOfMany(s: State, f: Flush, b: Bulk, r: Id)
    requires r in s.outbox && Applies(b, s.outbox[r])
    ensures Enabled(s, StepOf(b, f, r)) && After(s, StepOf(b, f, r)).outbox == OneMade(b, s.outbox, r)
  {
  }

  /** Row by row, the table changes as the outbox does. */
  lemma BulkKeepsView(decode: Decoder, t: Queue.Table, actor: Id, outbox: map<Id, Message>, b: Bulk, rs: set<Id>, step: Queue.Step)
    requires Views(decode, t, actor, outbox) && !step.Write?
    requires forall r :: r in outbox ==>
               var row := Queue.OnRow(step, Queue.Key(actor, r), t[Queue.Key(actor, r)]);
               if b.Deleting? && r in rs then row.None?
               else row.Some? && Shows(decode, row.value, if r in rs then Made(b, outbox[r]) else outbox[r])
    ensures Views(decode, Queue.After(t, step), actor, Bulked(b, outbox, rs))
  {
    var t', outbox' := Queue.After(t, step), Bulked(b, outbox, rs);
    forall k | k in t' ensures k.actor == actor && k.id in outbox' {
      assert k == Queue.Key(actor, k.id);
    }
  }

  /** The requests whose rows a statement changes. */
  function Touched(t: Queue.Table, actor: Id, outbox: map<Id, Message>, step: Queue.Step): set<Id> {
    set r | r in outbox && Queue.Key(actor, r) in t && Queue.OnRow(step, Queue.Key(actor, r), t[Queue.Key(actor, r)]) != Some(t[Queue.Key(actor, r)])
  }

  /** Leases, requeues and cleanup of the whole table. */
  predicate IsBulk(step: Queue.Step, b: Bulk, actor: Id) {
    match step
    case Lease(_, _, _) => b.Leasing?
    case Requeue(a, _) => b.Requeueing? && a == actor
    case Delete(_, _) => b.Deleting?
    case Redact(_, _) => b.Redacting?
    case _ => false
  }

  /** Such a statement changes a row exactly as the machine's step changes the message. */
  lemma BulkRow(decode: Decoder, row: Queue.Message, m: Message, k: Queue.Key, step: Queue.Step, b: Bulk)
    requires Shows(decode, row, m) && IsBulk(step, b, k.actor)
    requires step.Lease? && k in step.keys ==> row.status.Pending?
    requires step.Delete? ==> !step.rule.status.Live()
    ensures var row' := Queue.OnRow(step, k, row);
            if row' == Some(row) then Shows(decode, row, m)
            else Applies(b, m) && if b.Deleting? then row'.None? else row'.Some? && Shows(decode, row'.value, Made(b, m))
  {
  }

  lemma BulkStepIsRun(s: State, f: Flush, decode: Decoder, t: Queue.Table, actor: Id, step: Queue.Step, b: Bulk) returns (s': State)
    requires Views(decode, t, actor, s.outbox) && Queue.Enabled(t, step) && IsBulk(step, b, actor)
    ensures Leads(s, s') && Views(decode, Queue.After(t, step), actor, s'.outbox)
  {
    var rs := Touched(t, actor, s.outbox, step);
    forall r | r in s.outbox
      ensures var row := Queue.OnRow(step, Queue.Key(actor, r), t[Queue.Key(actor, r)]);
              if r !in rs then row.Some? && Shows(decode, row.value, s.outbox[r])
              else Applies(b, s.outbox[r]) && if b.Deleting? then row.None? else row.Some? && Shows(decode, row.value, Made(b, s.outbox[r]))
    {
      BulkRow(decode, t[Queue.Key(actor, r)], s.outbox[r], Queue.Key(actor, r), step, b);
    }
    s' := BulkIsRun(s, f, b, rs);
    BulkKeepsView(decode, t, actor, s.outbox, b, rs, step);
  }

  // ---------------------------------------------------------------- statements about one request

  /** A flush inserts a batch if absent, marks what was accepted, and puts a failed attempt off by a minute. */
  ghost predicate Concerns(s: State, f: Flush, decode: Decoder, actor: Id, step: Queue.Step, r: Id) {
    match step
    case Write(key, row, replace) =>
      && key == Queue.Key(actor, r) && !replace && Hand(f, r) in s.listed && row.payload != REDACTED
      && Shows(decode, row, Message(Pending, Some(s.listed[Hand(f, r)])))
    case MarkDone(id, status, _, _) => id == r && status.Acked? && Hand(f, r) in s.held && s.held[Hand(f, r)].Confirmed?
    case MarkFailed(id, _, retryAt, now) => id == r && retryAt.Some? && retryAt.value - RETRY_MS <= now && Holds(s.held, f, r)
    case _ => false
  }

  function UsageStep(step: Queue.Step, f: Flush, r: Id): Step {
    match step
    case MarkDone(_, _, _, _) => MarkAcked(f, r)
    case MarkFailed(_, _, retryAt, now) =>
      Fail(f, r, if retryAt.Some? && retryAt.value - RETRY_MS <= now then now - retryAt.value + RETRY_MS else 0)
    case _ => Enqueue(f, r)
  }

  lemma OneStepIsStep(s: State, f: Flush, decode: Decoder, t: Queue.Table, actor: Id, step: Queue.Step, r: Id) returns (s': State)
    requires Views(decode, t, actor, s.outbox) && Concerns(s, f, decode, actor, step, r)
    ensures Leads(s, s') && Views(decode, Queue.After(t, step), actor, s'.outbox)
  {
    StepMarks(s, f, decode, actor, step, r);
    s' := After(s, UsageStep(step, f, r));
    LeadsNowhere(s);
    LeadsFurther(s, s, UsageStep(step, f, r));
    OutboxMarked(s, f, decode, t, actor, step, r, s'.outbox);
  }

  lemma OutboxMarked(s: State, f: Flush, decode: Decoder, t: Queue.Table, actor: Id, step: Queue.Step, r: Id, outbox': map<Id, Message>)
    requires Views(decode, t, actor, s.outbox) && Concerns(s, f, decode, actor, step, r)
    requires outbox' == if r in s.outbox then s.outbox[r := RowMarked(step, s.outbox[r])]
                        else if step.Write? then s.outbox[r := Message(Pending, Some(s.listed[Hand(f, r)]))] else s.outbox
    ensures Views(decode, Queue.After(t, step), actor, outbox')
  {
    if r in s.outbox { MarkedRow(decode, t, Queue.Key(actor, r), step, s.outbox[r]); }
    OneKeepsView(decode, t, actor, s.outbox, outbox', step, r);
  }

  /** What the machine's step makes of the outbox. */
  lemma StepMarks(s: State, f: Flush, decode: Decoder, actor: Id, step: Queue.Step, r: Id)
    requires Concerns(s, f, decode, actor, step, r)
    ensures Enabled(s, UsageStep(step, f, r))
    ensures After(s, UsageStep(step, f, r)).outbox ==
            if r in s.outbox then s.outbox[r := RowMarked(step, s.outbox[r])]
            else if step.Write? then s.outbox[r := Message(Pending, Some(s.listed[Hand(f, r)]))] else s.outbox
  {
  }

  function RowMarked(step: Queue.Step, m: Message): Message {
    match step
    case MarkDone(_, _, _, _) => m.(status := Acked)
    case MarkFailed(_, _, retryAt, now) => m.(status := if retryAt.Some? && retryAt.value > now then Pending else Failed)
    case _ => m
  }

  lemma MarkedRow(decode: Decoder, t: Queue.Table, k: Queue.Key, step: Queue.Step, m: Message)
    requires k in t && Shows(decode, t[k], m)
    requires (step.Write? && !step.replace) || (step.MarkDone? && step.id == k.id && step.status.Acked?) || (step.MarkFailed? && step.id == k.id)
    ensures k in Queue.After(t, step) && Shows(decode, Queue.After(t, step)[k], RowMarked(step, m))
  {
  }

  lemma OneKeepsView(decode: Decoder, t: Queue.Table, actor: Id, outbox: map<Id, Message>, outbox': map<Id, Message>, step: Queue.Step, r: Id)
    requires Views(decode, t, actor, outbox) && (step.Write? || step.MarkDone? || step.MarkFailed?)
    requires forall q :: q in outbox && q != r ==> q in outbox' && outbox'[q] == outbox[q]
    requires forall q :: q in outbox' && q != r ==> q in outbox
    requires if step.Write? then step.key == Queue.Key(actor, r) && r in outbox' else step.id == r && (r in outbox' <==> r in outbox)
    requires r in outbox' ==> Queue.Key(actor, r) in Queue.After(t, step) && Shows(decode, Queue.After(t, step)[Queue.Key(actor, r)], outbox'[r])
    ensures Views(decode, Queue.After(t, step), actor, outbox')
  {
    var t' := Queue.After(t, step);
    forall k | k in t' ensures k.actor == actor && k.id in outbox' {
      if k.id != r { assert k in t; }
    }
  }

  /** Usage batches have no expiry. */
  lemma NothingExpires(decode: Decoder, t: Queue.Table, actor: Id, outbox: map<Id, Message>, step: Queue.Step)
    requires Views(decode, t, actor, outbox) && step.Expire?
    ensures Views(decode, Queue.After(t, step), actor, outbox)
  {
    BulkKeepsView(decode, t, actor, outbox, Redacting, {}, step);
    assert Bulked(Redacting, outbox, {}) == outbox;
  }

  /** The statements that the agent issues: a flush about one request, or anybody about many rows. */
  ghost predicate Issues(s: State, f: Flush, decode: Decoder, actor: Id, step: Queue.Step) {
    (exists b :: IsBulk(step, b, actor)) || (exists r :: Concerns(s, f, decode, actor, step, r)) || (step.Expire? && step.actor == actor)
  }

  /**
   * Every statement on the agent's outbox table, by either flush or by the heartbeat, is a run of the usage
   * machine. So what the machine keeps in every reachable state holds of that table, whatever the queue does to it.
   */
  lemma QueueStepIsRun(s: State, f: Flush, decode: Decoder, t: Queue.Table, actor: Id, step: Queue.Step) returns (s': State)
    requires Views(decode, t, actor, s.outbox) && Queue.Enabled(t, step) && Issues(s, f, decode, actor, step)
    ensures Leads(s, s') && Views(decode, Queue.After(t, step), actor, s'.outbox)
  {
    if b :| IsBulk(step, b, actor) {
      s' := BulkStepIsRun(s, f, decode, t, actor, step, b);
    } else if r :| Concerns(s, f, decode, actor, step, r) {
      s' := OneStepIsStep(s, f, decode, t, actor, step, r);
    } else {
      LeadsNowhere(s);
      s' := s;
      NothingExpires(decode, t, actor, s.outbox, step);
    }
  }
}
