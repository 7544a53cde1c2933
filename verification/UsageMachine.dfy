/**
 * Usage accounting as one state machine over the agent's traffic table, the agent's outbox, the two
 * flushes that work on them side by side, a network that loses, repeats and delays, and the server's
 * ledger and inbox. Every database transaction is a step, and the agent can lose its memory between
 * any two of them.
 */
module UsageMachine {
  import opened Ids
  import opened Wrappers
  import opened TrafficStore
  import opened UsageLedger

  datatype Status = Pending | InFlight | Acked | Failed

  /** An outbox row; redaction leaves no payload. */
  datatype Message = Message(status: Status, payload: Option<Payload>) {
    predicate Live() { status.Pending? || status.InFlight? }
  }

  datatype Delivery = Delivery(request: Id, payload: Payload)

  /** The agent flushes from two goroutines: after every synchronisation, and on the telemetry ticker. */
  datatype Flush = Sync | Telemetry {
    function Other(): Flush { if Sync? then Telemetry else Sync }
  }

  /** A flush and a request that it works on. */
  datatype Hand = Hand(flush: Flush, request: Id)

  /** A leased message on its way out, without payload if it was redacted, or accepted and still to be marked. */
  datatype Hold = Leased(payload: Option<Payload>) | Confirmed

  datatype State = State(
    table: Table, outbox: map<Id, Message>,                                    // agent databases
    listed: map<Hand, Payload>, held: map<Hand, Hold>,                         // agent memory
    sent: set<Delivery>, acks: set<Delivery>,                                  // network
    owned: set<Id>, foreign: set<Id>,                                          // connections of this node and of others
    totals: Payload, credited: map<Id, Payload>, inbox: map<Id, Payload>,      // server databases
    meters: map<Id, Meter>, issued: map<Id, Payload>, settled: set<Id>,        // history, read by no step but Prepare
    late: set<Id>, contested: set<Id>)                                         // history of failures

  const RETRY_MS: int := 60_000

  datatype Step =
    | Observe(records: seq<Record>)
    | Prepare(flush: Flush, request: Id, ids: seq<Id>)
    | ListPrepared(flush: Flush)
    | Enqueue(flush: Flush, request: Id)
    | Lease(flush: Flush, request: Id)
    | Requeue(request: Id)
    | Send(flush: Flush, request: Id)
    | Own(id: Id)
    | Apply(delivery: Delivery)
    | Answer(request: Id)
    | Replay(request: Id)
    | CleanInbox(request: Id)
    | Acknowledge(flush: Flush, ack: Delivery)
    | MarkAcked(flush: Flush, request: Id)
    | Fail(flush: Flush, request: Id, elapsed: nat)
    | Skip(flush: Flush, request: Id)
    | Leave(flush: Flush)
    | CleanOutbox(request: Id)
    | Redact(request: Id)
    | Crash

  const USAGE_RECORDS_PER_MESSAGE := 100

  predicate Fits(p: Payload) {
    forall id :: id in p ==> p[id].tx <= MAX_INT64 - p[id].rx
  }

  function Requests(t: Table): set<Id> {
    set id | id in t && t[id].request.Some? :: t[id].request.value
  }

  /** The flush has leased the request and done nothing about it yet. */
  predicate Holds(held: map<Hand, Hold>, f: Flush, r: Id) {
    Hand(f, r) in held && held[Hand(f, r)].Leased?
  }

  predicate HoldsPayload(held: map<Hand, Hold>, f: Flush, r: Id) {
    Holds(held, f, r) && held[Hand(f, r)].payload.Some?
  }

  ghost predicate NobodyHolds(held: map<Hand, Hold>, r: Id) {
    forall h :: h in held && h.request == r ==> held[h].Confirmed?
  }

  ghost predicate NobodyDelivers(held: map<Hand, Hold>, r: Id) {
    forall h :: h in held && h.request == r && held[h].Leased? ==> held[h].payload.None?
  }

  predicate Enabled(s: State, step: Step) {
    match step
    case Observe(records) => ObserveAll(s.table, records).Ok?
    case Prepare(_, r, ids) => r != "" && r !in s.issued && ids != [] && FirstEligible(s.table, USAGE_RECORDS_PER_MESSAGE, ids)
    case ListPrepared(_) => true
    case Enqueue(f, r) => Hand(f, r) in s.listed
    case Lease(_, r) => r in s.outbox && s.outbox[r].status.Pending?
    case Requeue(r) => r in s.outbox && s.outbox[r].status.InFlight?
    case Send(f, r) => HoldsPayload(s.held, f, r)
    case Own(id) => id !in s.foreign
    case Apply(d) => d in s.sent && d.request !in s.credited && Fits(d.payload) && d.payload.Keys <= s.owned
    case Answer(r) => r in s.credited
    case Replay(r) => r in s.inbox
    case CleanInbox(r) => r in s.inbox
    case Acknowledge(f, a) => HoldsPayload(s.held, f, a.request) && a in s.acks && TrafficStore.Acknowledge(s.table, a.request, a.payload).Ok?
    case MarkAcked(f, r) => Hand(f, r) in s.held && s.held[Hand(f, r)].Confirmed?
    case Fail(f, r, _) => Holds(s.held, f, r)
    case Skip(f, r) => Hand(f, r) in s.held
    case Leave(_) => true
    case CleanOutbox(r) => r in s.outbox && !s.outbox[r].Live()
    case Redact(r) => r in s.outbox && !s.outbox[r].Live()
    case Crash => true
  }

  /** `MarkFailed`: the row is retried only if the retry time still lies ahead when it is written. */
  function AfterFailure(elapsed: nat): Status {
    if elapsed < RETRY_MS then Pending else Failed
  }

  function AnswerOf(s: State, r: Id): Payload
    requires r in s.credited
  {
    TotalsFor(s.totals, s.credited[r])
  }

  /** The memory of one flush is gone. */
  function Without<T>(m: map<Hand, T>, f: Flush): map<Hand, T> {
    map h | h in m && h.flush != f :: m[h]
  }

  function ListedBy(f: Flush, t: Table): map<Hand, Payload> {
    map r | r in Requests(t) :: Hand(f, r) := FrozenPayload(t, r)
  }

  /** An update by identifier; without such a row it changes nothing. */
  function Marked(outbox: map<Id, Message>, r: Id, status: Status): map<Id, Message> {
    if r in outbox then outbox[r := outbox[r].(status := status)] else outbox
  }

  /** After a failed delivery the flush ends; a message that cannot be decoded is passed over. */
  function HeldAfterFailure(held: map<Hand, Hold>, f: Flush, r: Id): map<Hand, Hold>
    requires Holds(held, f, r)
  {
    if held[Hand(f, r)].payload.Some? then Without(held, f) else held - {Hand(f, r)}
  }

  function LateAfter(late: set<Id>, r: Id, elapsed: nat): set<Id> {
    if AfterFailure(elapsed).Failed? then late + {r} else late
  }

  /** A late failure is contested if the other flush holds the message, too. */
  function ContestedAfter(contested: set<Id>, held: map<Hand, Hold>, f: Flush, r: Id, elapsed: nat): set<Id> {
    if AfterFailure(elapsed).Failed? && Holds(held, f.Other(), r) then contested + {r} else contested
  }

  /** A request is issued with what its connections owe. */
  function Issue(s: State, f: Flush, r: Id, t: Table): State {
    s.(table := t, issued := s.issued[r := FrozenPayload(t, r)], listed := s.listed[Hand(f, r) := FrozenPayload(t, r)])
  }

  /** A flush begins: it forgets what it held before and lists the frozen requests. */
  function Begin(s: State, f: Flush): State {
    s.(listed := Without(s.listed, f) + ListedBy(f, s.table), held := Without(s.held, f))
  }

  /** A request is settled, its connections are released, and its message is still to be marked. */
  function Confirm(s: State, f: Flush, r: Id, t: Table): State {
    s.(table := t, settled := s.settled + {r}, held := s.held[Hand(f, r) := Confirmed])
  }

  function After(s: State, step: Step): State
    requires Enabled(s, step)
  {
    match step
    case Observe(records) => s.(table := ObserveAll(s.table, records).value, meters := Measure(s.meters, records))
    case Prepare(f, r, ids) => Issue(s, f, r, Freeze(s.table, r, set id | id in ids))
    case ListPrepared(f) => Begin(s, f)
    case Enqueue(f, r) => if r in s.outbox then s else s.(outbox := s.outbox[r := Message(Pending, Some(s.listed[Hand(f, r)]))])
    case Lease(f, r) => s.(outbox := Marked(s.outbox, r, InFlight), held := s.held[Hand(f, r) := Leased(s.outbox[r].payload)])
    case Requeue(r) => s.(outbox := Marked(s.outbox, r, Pending))
    case Send(f, r) => s.(sent := s.sent + {Delivery(r, s.held[Hand(f, r)].payload.value)})
    case Own(id) => s.(owned := s.owned + {id})
    case Apply(d) => s.(totals := Credit(s.totals, d.payload), credited := s.credited[d.request := d.payload])
    case Answer(r) => s.(inbox := s.inbox[r := AnswerOf(s, r)], acks := s.acks + {Delivery(r, AnswerOf(s, r))})
    case Replay(r) => s.(acks := s.acks + {Delivery(r, s.inbox[r])})
    case CleanInbox(r) => s.(inbox := s.inbox - {r})
    case Acknowledge(f, a) => Confirm(s, f, a.request, TrafficStore.Acknowledge(s.table, a.request, a.payload).value)
    case MarkAcked(f, r) => s.(outbox := Marked(s.outbox, r, Acked), held := s.held - {Hand(f, r)})
    case Fail(f, r, elapsed) =>
      s.(outbox := Marked(s.outbox, r, AfterFailure(elapsed)), held := HeldAfterFailure(s.held, f, r),
         late := LateAfter(s.late, r, elapsed), contested := ContestedAfter(s.contested, s.held, f, r, elapsed))
    case Skip(f, r) => s.(held := s.held - {Hand(f, r)})
    case Leave(f) => s.(listed := Without(s.listed, f), held := Without(s.held, f))
    case CleanOutbox(r) => s.(outbox := s.outbox - {r})
    case Redact(r) => s.(outbox := s.outbox[r := s.outbox[r].(payload := None)])
    case Crash => s.(listed := map[], held := map[])
  }

  function Initial(owned: set<Id>, foreign: set<Id>): State {
    State(map[], map[], map[], map[], {}, {}, owned, foreign, map[], map[], map[], map[], map[], {}, {}, {})
  }

  predicate Init(s: State) {
    s == Initial(s.owned, s.foreign) && s.owned !! s.foreign
  }

  ghost predicate Happens(states: seq<State>, steps: seq<Step>, i: nat) {
    i < |steps| && i + 1 < |states| && Enabled(states[i], steps[i]) && states[i + 1] == After(states[i], steps[i])
  }

  /** A run of the machine, with every state it goes through. */
  ghost predicate Run(states: seq<State>, steps: seq<Step>) {
    |states| == |steps| + 1 && forall i :: 0 <= i < |steps| ==> Happens(states, steps, i)
  }

  /** The machine can go from one state to the other. */
  ghost predicate Leads(s: State, s': State) {
    exists states, steps :: Run(states, steps) && states[0] == s && states[|steps|] == s'
  }

  ghost predicate Reachable(s: State) {
    exists start :: Init(start) && Leads(start, s)
  }

  lemma LeadsNowhere(s: State)
    ensures Leads(s, s)
  {
    assert Run([s], []);
  }

  lemma LeadsFurther(s: State, s1: State, step: Step)
    requires Leads(s, s1) && Enabled(s1, step)
    ensures Leads(s, After(s1, step))
  {
    var states, steps :| Run(states, steps) && states[0] == s && states[|steps|] == s1;
    RunExtends(states, steps, step);
    var states', steps' := states + [After(s1, step)], steps + [step];
    assert states'[0] == s && states'[|steps'|] == After(s1, step);
  }

  lemma RunExtends(states: seq<State>, steps: seq<Step>, step: Step)
    requires Run(states, steps) && Enabled(states[|steps|], step)
    ensures Run(states + [After(states[|steps|], step)], steps + [step])
  {
    var states', steps' := states + [After(states[|steps|], step)], steps + [step];
    forall i | 0 <= i < |steps'| ensures Happens(states', steps', i) {
      if i < |steps| { assert Happens(states, steps, i); }
    }
  }

  // ---------------------------------------------------------------- what was observed

  /** The last accepted reading of a connection's counter and the sum of all deltas up to it. */
  datatype Meter = Meter(last: Bytes, total: Bytes)

  function MeterOf(meters: map<Id, Meter>, id: Id): Meter {
    if id in meters then meters[id] else Meter(NOTHING, NOTHING)
  }

  function Measure(meters: map<Id, Meter>, records: seq<Record>): map<Id, Meter> {
    if records == [] then meters
    else
      var init, last := records[..|records| - 1], records[|records| - 1];
      var meter := MeterOf(Measure(meters, init), last.id);
      Measure(meters, init)[last.id := Meter(last.bytes, meter.total.Plus(Delta(last.bytes, meter.last)))]
  }

  // ---------------------------------------------------------------- invariant

  /** What the agent still holds although the server has credited it already. */
  function CreditedTwice(row: Row, credited: map<Id, Payload>): Bytes {
    if row.request.Some? && row.request.value in credited then row.sent else NOTHING
  }

  predicate Balanced(row: Row, total: Bytes, credited: map<Id, Payload>, observed: Bytes) {
    var twice := CreditedTwice(row, credited);
    && total.rx + row.unacknowledged.rx - twice.rx == observed.rx
    && total.tx + row.unacknowledged.tx - twice.tx == observed.tx
  }

  ghost predicate Conserved(s: State, id: Id) {
    Balanced(RowOf(s.table, id), AmountIn(s.totals, id), s.credited, MeterOf(s.meters, id).total)
  }

  ghost predicate AllConserved(table: Table, totals: Payload, credited: map<Id, Payload>, meters: map<Id, Meter>) {
    forall id :: Balanced(RowOf(table, id), AmountIn(totals, id), credited, MeterOf(meters, id).total)
  }

  /** What a signed 64-bit column can hold, in both directions. */
  const CEILING: Bytes := Bytes(MAX_INT64, MAX_INT64)

  ghost predicate RowOk(issued: map<Id, Payload>, settled: set<Id>, id: Id, row: Row) {
    && id != "" && row.sent.Natural() && row.sent.AtMost(row.unacknowledged) && row.unacknowledged.AtMost(CEILING)
    && match row.request
       case None => row.sent == NOTHING
       case Some(r) => r in issued && r !in settled && id in issued[r] && issued[r][id] == row.sent
  }

  ghost predicate RowsOk(table: Table, issued: map<Id, Payload>, settled: set<Id>) {
    forall id :: id in table ==> RowOk(issued, settled, id, table[id])
  }

  ghost predicate ReadingsOk(table: Table, meters: map<Id, Meter>) {
    forall id :: RowOf(table, id).observed == MeterOf(meters, id).last
  }

  ghost predicate IssuedOk(issued: map<Id, Payload>) {
    forall r :: r in issued ==> r != "" && issued[r] != map[] && forall id :: id in issued[r] ==> id != "" && issued[r][id].Natural()
  }

  ghost predicate StillFrozen(table: Table, issued: map<Id, Payload>, settled: set<Id>) {
    forall r, id :: r in issued && r !in settled && id in issued[r] ==> id in table && table[id].request == Some(r)
  }

  ghost predicate CopiesOk(issued: map<Id, Payload>, copies: map<Id, Payload>) {
    forall r :: r in copies ==> r in issued && copies[r] == issued[r]
  }

  ghost predicate SentOk(issued: map<Id, Payload>, sent: set<Delivery>) {
    forall d :: d in sent ==> d.request in issued && d.payload == issued[d.request]
  }

  ghost predicate ListedOk(issued: map<Id, Payload>, listed: map<Hand, Payload>) {
    forall h :: h in listed ==> h.request in issued && listed[h] == issued[h.request]
  }

  /** A flush holds a message with the payload of its request or with none, and marks only what is settled. */
  ghost predicate HeldOk(issued: map<Id, Payload>, settled: set<Id>, held: map<Hand, Hold>) {
    forall h :: h in held ==>
      && h.request in issued
      && (held[h].Leased? && held[h].payload.Some? ==> held[h].payload.value == issued[h.request])
      && (held[h].Confirmed? ==> h.request in settled)
  }

  /**
   * A row of a request that the agent still waits for is live and carries its payload, unless a failure was
   * written late. Then it is failed and nobody holds it, unless the other flush held it at that failure.
   */
  ghost predicate Sound(late: set<Id>, contested: set<Id>, held: map<Hand, Hold>, r: Id, m: Message) {
    && (!m.Live() ==> m.status.Failed? && r in late && (r in contested || NobodyHolds(held, r)))
    && (m.payload.None? ==> r in late && (r in contested || !m.Live()))
  }

  ghost predicate MessageOk(issued: map<Id, Payload>, settled: set<Id>, late: set<Id>, contested: set<Id>, held: map<Hand, Hold>, r: Id, m: Message) {
    && r in issued
    && (m.payload.Some? ==> m.payload.value == issued[r])
    && (r in settled || Sound(late, contested, held, r, m))
  }

  ghost predicate OutboxOk(outbox: map<Id, Message>, issued: map<Id, Payload>, settled: set<Id>, late: set<Id>, contested: set<Id>, held: map<Hand, Hold>) {
    forall r :: r in outbox ==> MessageOk(issued, settled, late, contested, held, r, outbox[r])
  }

  /** Only batches that pass the server's checks are ever credited. */
  ghost predicate CreditedFit(credited: map<Id, Payload>, owned: set<Id>) {
    forall r :: r in credited ==> Fits(credited[r]) && credited[r].Keys <= owned
  }

  ghost predicate LedgerOk(totals: Payload, credited: map<Id, Payload>) {
    && (forall r, id :: r in credited && id in credited[r] ==> credited[r][id].AtMost(AmountIn(totals, id)))
    && (forall id :: id in totals ==> totals[id].Natural())
  }

  /** An answer covers exactly the credited connections, with totals between the batch's and today's. */
  ghost predicate Fair(totals: Payload, credited: map<Id, Payload>, r: Id, answer: Payload) {
    && r in credited && answer.Keys == credited[r].Keys
    && forall id :: id in answer ==> credited[r][id].AtMost(answer[id]) && answer[id].AtMost(AmountIn(totals, id))
  }

  ghost predicate AnswersOk(totals: Payload, credited: map<Id, Payload>, acks: set<Delivery>, inbox: map<Id, Payload>) {
    && (forall a :: a in acks ==> Fair(totals, credited, a.request, a.payload))
    && (forall r :: r in inbox ==> Fair(totals, credited, r, inbox[r]))
  }

  ghost predicate AgentOk(s: State) {
    && RowsOk(s.table, s.issued, s.settled)
    && ReadingsOk(s.table, s.meters)
    && IssuedOk(s.issued)
    && StillFrozen(s.table, s.issued, s.settled)
    && OutboxOk(s.outbox, s.issued, s.settled, s.late, s.contested, s.held)
    && ListedOk(s.issued, s.listed) && HeldOk(s.issued, s.settled, s.held)
  }

  /** What a row was last acknowledged with is a total that the server has reached. */
  ghost predicate AcknowledgedOk(table: Table, totals: Payload) {
    forall id :: id in table ==> table[id].acknowledged.AtMost(AmountIn(totals, id))
  }

  ghost predicate ServerOk(s: State) {
    && SentOk(s.issued, s.sent)
    && s.settled <= s.credited.Keys
    && CopiesOk(s.issued, s.credited) && CreditedFit(s.credited, s.owned) && s.owned !! s.foreign
    && LedgerOk(s.totals, s.credited)
    && AnswersOk(s.totals, s.credited, s.acks, s.inbox)
  }

  ghost predicate Inv(s: State) {
    AgentOk(s) && ServerOk(s) && AcknowledgedOk(s.table, s.totals) && AllConserved(s.table, s.totals, s.credited, s.meters)
  }

  // ---------------------------------------------------------------- observing

  lemma ObserveOne(t: Table, r: Record, id: Id)
    requires ObserveRecord(t, r).Ok?
    ensures var row, row' := RowOf(t, id), RowOf(ObserveRecord(t, r).value, id);
            if r.id == id
            then Delta(r.bytes, row.observed).Natural() && row'.unacknowledged.AtMost(CEILING)
                 && row' == row.(observed := r.bytes, unacknowledged := row.unacknowledged.Plus(Delta(r.bytes, row.observed)))
            else row' == row
    ensures id in ObserveRecord(t, r).value <==> id in t || id == r.id
  {
  }

  /** A row grows by exactly the deltas of the new readings and is otherwise left alone. */
  ghost predicate Grew(row: Row, row': Row, before: Bytes, after: Bytes) {
    && row'.unacknowledged.rx - row.unacknowledged.rx == after.rx - before.rx >= 0
    && row'.unacknowledged.tx - row.unacknowledged.tx == after.tx - before.tx >= 0
    && row' == row.(observed := row'.observed, unacknowledged := row'.unacknowledged)
  }

  lemma {:induction false} ObserveCounts(t: Table, meters: map<Id, Meter>, records: seq<Record>, id: Id)
    requires ObserveAll(t, records).Ok?
    requires RowOf(t, id).observed == MeterOf(meters, id).last
    ensures var row' := RowOf(ObserveAll(t, records).value, id);
            && row'.observed == MeterOf(Measure(meters, records), id).last
            && Grew(RowOf(t, id), row', MeterOf(meters, id).total, MeterOf(Measure(meters, records), id).total)
    ensures (id in t ==> id in ObserveAll(t, records).value) && (id in ObserveAll(t, records).value ==> id in t || id != "")
    ensures RowOf(t, id).unacknowledged.AtMost(CEILING) ==> RowOf(ObserveAll(t, records).value, id).unacknowledged.AtMost(CEILING)
  {
    if records != [] {
      var init, last := records[..|records| - 1], records[|records| - 1];
      ObserveCounts(t, meters, init, id);
      ObserveOne(ObserveAll(t, init).value, last, id);
    }
  }

  lemma ObserveKeeps(s: State, records: seq<Record>)
    requires Inv(s) && Enabled(s, Observe(records))
    ensures Inv(After(s, Observe(records)))
  {
    var s' := After(s, Observe(records));
    forall id
      ensures RowOf(s'.table, id).observed == MeterOf(s'.meters, id).last
      ensures Grew(RowOf(s.table, id), RowOf(s'.table, id), MeterOf(s.meters, id).total, MeterOf(s'.meters, id).total)
      ensures (id in s.table ==> id in s'.table) && (id in s'.table ==> id in s.table || id != "")
      ensures RowOf(s'.table, id).unacknowledged.AtMost(CEILING)
    {
      ObserveCounts(s.table, s.meters, records, id);
      if id in s.table { assert RowOk(s.issued, s.settled, id, s.table[id]); }
    }
    GrownRows(s.table, s'.table, s.meters, s'.meters, s.issued, s.settled);
    GrownBalance(s.table, s'.table, s.totals, s.credited, s.meters, s'.meters);
    SameAcknowledged(s.table, s'.table, s.totals);
  }

  lemma SameAcknowledged(t: Table, t': Table, totals: Payload)
    requires AcknowledgedOk(t, totals) && forall id :: id in totals ==> totals[id].Natural()
    requires forall id :: id in t' ==> t'[id].acknowledged == RowOf(t, id).acknowledged
    ensures AcknowledgedOk(t', totals)
  {
  }

  lemma GrownRows(t: Table, t': Table, m: map<Id, Meter>, m': map<Id, Meter>, issued: map<Id, Payload>, settled: set<Id>)
    requires RowsOk(t, issued, settled) && StillFrozen(t, issued, settled) && t.Keys <= t'.Keys
    requires forall id :: Grew(RowOf(t, id), RowOf(t', id), MeterOf(m, id).total, MeterOf(m', id).total)
    requires forall id :: RowOf(t', id).unacknowledged.AtMost(CEILING)
    requires forall id :: id in t' ==> id in t || id != ""
    ensures RowsOk(t', issued, settled) && StillFrozen(t', issued, settled)
    ensures forall id :: id in t' ==> t'[id].acknowledged == RowOf(t, id).acknowledged
  {
    forall id | id in t' ensures RowOk(issued, settled, id, t'[id]) {
      assert Grew(RowOf(t, id), RowOf(t', id), MeterOf(m, id).total, MeterOf(m', id).total);
      if id in t { assert RowOk(issued, settled, id, t[id]); }
    }
    forall r, id | r in issued && r !in settled && id in issued[r] ensures id in t' && t'[id].request == Some(r) {
      assert Grew(RowOf(t, id), RowOf(t', id), MeterOf(m, id).total, MeterOf(m', id).total);
    }
  }

  lemma GrownBalance(t: Table, t': Table, totals: Payload, credited: map<Id, Payload>, meters: map<Id, Meter>, meters': map<Id, Meter>)
    requires AllConserved(t, totals, credited, meters)
    requires forall id :: Grew(RowOf(t, id), RowOf(t', id), MeterOf(meters, id).total, MeterOf(meters', id).total)
    ensures AllConserved(t', totals, credited, meters')
  {
    forall id ensures Balanced(RowOf(t', id), AmountIn(totals, id), credited, MeterOf(meters', id).total) {
      assert Balanced(RowOf(t, id), AmountIn(totals, id), credited, MeterOf(meters, id).total);
    }
  }

  // ---------------------------------------------------------------- freezing

  lemma FreezeIsFresh(t: Table, issued: map<Id, Payload>, settled: set<Id>, r: Id, ids: seq<Id>)
    requires RowsOk(t, issued, settled) && r !in issued
    requires ids != [] && FirstEligible(t, USAGE_RECORDS_PER_MESSAGE, ids)
    ensures var t' := Freeze(t, r, set id | id in ids);
            && FrozenPayload(t', r).Keys == (set id | id in ids)
            && FrozenPayload(t', r) != map[]
            && forall id :: id in ids ==> id in t && Eligible(t[id]) && FrozenPayload(t', r)[id] == t[id].unacknowledged
  {
    var t' := Freeze(t, r, set id | id in ids);
    assert forall id :: id in t ==> RowOk(issued, settled, id, t[id]) && t[id].request != Some(r);
    assert Frozen(t', r) == set id | id in ids;
    assert ids[0] in FrozenPayload(t', r);
  }

  lemma FreezeKeepsRows(t: Table, issued: map<Id, Payload>, settled: set<Id>, r: Id, ids: seq<Id>)
    requires RowsOk(t, issued, settled) && StillFrozen(t, issued, settled) && IssuedOk(issued) && settled <= issued.Keys
    requires r != "" && r !in issued && ids != [] && FirstEligible(t, USAGE_RECORDS_PER_MESSAGE, ids)
    ensures var t' := Freeze(t, r, set id | id in ids);
            var issued' := issued[r := FrozenPayload(t', r)];
            RowsOk(t', issued', settled) && StillFrozen(t', issued', settled) && IssuedOk(issued')
  {
    FreezeIsFresh(t, issued, settled, r, ids);
    var t' := Freeze(t, r, set id | id in ids);
    var issued' := issued[r := FrozenPayload(t', r)];
    forall id | id in t' ensures RowOk(issued', settled, id, t'[id]) {
      assert RowOk(issued, settled, id, t[id]);
    }
  }

  lemma FreezeKeepsBalance(t: Table, s: State, r: Id, ids: seq<Id>)
    requires AllConserved(s.table, s.totals, s.credited, s.meters) && RowsOk(s.table, s.issued, s.settled)
    requires ReadingsOk(s.table, s.meters)
    requires r !in s.credited && FirstEligible(s.table, USAGE_RECORDS_PER_MESSAGE, ids)
    requires t == Freeze(s.table, r, set id | id in ids)
    ensures AllConserved(t, s.totals, s.credited, s.meters) && ReadingsOk(t, s.meters)
  {
    forall id
      ensures Balanced(RowOf(t, id), AmountIn(s.totals, id), s.credited, MeterOf(s.meters, id).total)
      ensures RowOf(t, id).observed == MeterOf(s.meters, id).last
    {
      assert Balanced(RowOf(s.table, id), AmountIn(s.totals, id), s.credited, MeterOf(s.meters, id).total);
      assert RowOf(s.table, id).observed == MeterOf(s.meters, id).last;
    }
  }

  lemma PrepareKeeps(s: State, f: Flush, r: Id, ids: seq<Id>)
    requires Inv(s) && Enabled(s, Prepare(f, r, ids))
    ensures Inv(After(s, Prepare(f, r, ids)))
  {
    var t := Freeze(s.table, r, set id | id in ids);
    FreezeKeepsRows(s.table, s.issued, s.settled, r, ids);
    FreezeKeepsBalance(t, s, r, ids);
    SameAcknowledged(s.table, t, s.totals);
    MoreIssued(s, r, FrozenPayload(t, r));
    MoreListed(s.issued[r := FrozenPayload(t, r)], s.listed, Hand(f, r));
  }

  lemma MoreIssued(s: State, r: Id, p: Payload)
    requires Inv(s) && r !in s.issued
    ensures OutboxOk(s.outbox, s.issued[r := p], s.settled, s.late, s.contested, s.held)
    ensures ListedOk(s.issued[r := p], s.listed) && HeldOk(s.issued[r := p], s.settled, s.held)
    ensures SentOk(s.issued[r := p], s.sent) && CopiesOk(s.issued[r := p], s.credited)
  {
    forall q | q in s.outbox ensures MessageOk(s.issued[r := p], s.settled, s.late, s.contested, s.held, q, s.outbox[q]) {
      assert MessageOk(s.issued, s.settled, s.late, s.contested, s.held, q, s.outbox[q]);
    }
  }

  lemma MoreListed(issued: map<Id, Payload>, listed: map<Hand, Payload>, h: Hand)
    requires ListedOk(issued, listed) && h.request in issued
    ensures ListedOk(issued, listed[h := issued[h.request]])
  {
  }

  /** The frozen rows of an unsettled request are exactly the payload it was issued with. */
  lemma FrozenIsIssued(t: Table, issued: map<Id, Payload>, settled: set<Id>, r: Id)
    requires RowsOk(t, issued, settled) && StillFrozen(t, issued, settled) && IssuedOk(issued)
    requires r in issued && r !in settled
    ensures FrozenPayload(t, r) == issued[r] && Frozen(t, r) == issued[r].Keys
    ensures r in Requests(t)
  {
    assert forall id :: id in t ==> RowOk(issued, settled, id, t[id]);
    assert issued[r].Keys != {};
    var id :| id in issued[r];
    assert id in t && t[id].request == Some(r);
  }

  lemma ListKeeps(s: State, f: Flush)
    requires Inv(s)
    ensures Inv(After(s, ListPrepared(f)))
  {
    var mine := ListedBy(f, s.table);
    forall h | h in mine ensures h.request in s.issued && mine[h] == s.issued[h.request] {
      RequestsAreIssued(s, h.request);
    }
    assert ListedOk(s.issued, Without(s.listed, f) + mine);
    FewerHeld(s, Without(s.held, f));
  }

  /** A flush may let go of what it holds at any time. */
  lemma FewerHeld(s: State, held: map<Hand, Hold>)
    requires OutboxOk(s.outbox, s.issued, s.settled, s.late, s.contested, s.held) && HeldOk(s.issued, s.settled, s.held)
    requires forall h :: h in held ==> h in s.held && held[h] == s.held[h]
    ensures OutboxOk(s.outbox, s.issued, s.settled, s.late, s.contested, held) && HeldOk(s.issued, s.settled, held)
  {
    forall r | r in s.outbox ensures MessageOk(s.issued, s.settled, s.late, s.contested, held, r, s.outbox[r]) {
      assert MessageOk(s.issued, s.settled, s.late, s.contested, s.held, r, s.outbox[r]);
    }
  }

  // ---------------------------------------------------------------- the server

  /** Totals after a batch, connection by connection. */
  ghost predicate Credits(totals: Payload, p: Payload, totals': Payload) {
    && totals'.Keys == totals.Keys + p.Keys
    && forall id :: && AmountIn(totals', id).rx == AmountIn(totals, id).rx + AmountIn(p, id).rx
                    && AmountIn(totals', id).tx == AmountIn(totals, id).tx + AmountIn(p, id).tx
  }

  lemma CreditIsSum(totals: Payload, p: Payload)
    ensures Credits(totals, p, Credit(totals, p))
  {
  }

  lemma CreditGrows(totals: Payload, credited: map<Id, Payload>, r: Id, p: Payload, totals': Payload)
    requires LedgerOk(totals, credited) && r !in credited && forall id :: id in p ==> p[id].Natural()
    requires Credits(totals, p, totals')
    ensures LedgerOk(totals', credited[r := p])
    ensures forall id :: AmountIn(totals, id).AtMost(AmountIn(totals', id))
  {
    forall id | id in totals' ensures totals'[id].Natural() {
      assert AmountIn(totals', id).rx == AmountIn(totals, id).rx + AmountIn(p, id).rx;
    }
    forall id ensures AmountIn(totals, id).AtMost(AmountIn(totals', id)) {
      assert AmountIn(totals', id).rx == AmountIn(totals, id).rx + AmountIn(p, id).rx;
    }
    var credited': map<Id, Payload> := credited[r := p];
    forall q, id | q in credited' && id in credited'[q] ensures credited'[q][id].AtMost(AmountIn(totals', id)) {
      assert AmountIn(totals', id).rx == AmountIn(totals, id).rx + AmountIn(p, id).rx;
      if q != r { assert credited[q][id].AtMost(AmountIn(totals, id)); }
    }
  }

  lemma FairStays(totals: Payload, credited: map<Id, Payload>, r: Id, p: Payload, totals': Payload, q: Id, answer: Payload)
    requires Fair(totals, credited, q, answer) && r !in credited && forall id :: id in p ==> p[id].Natural()
    requires Credits(totals, p, totals')
    ensures Fair(totals', credited[r := p], q, answer)
  {
    forall id | id in answer ensures answer[id].AtMost(AmountIn(totals', id)) {
      assert AmountIn(totals', id).rx == AmountIn(totals, id).rx + AmountIn(p, id).rx;
    }
  }

  lemma CreditBalances(s: State, r: Id, p: Payload, totals': Payload)
    requires RowsOk(s.table, s.issued, s.settled) && StillFrozen(s.table, s.issued, s.settled)
    requires AllConserved(s.table, s.totals, s.credited, s.meters)
    requires r in s.issued && p == s.issued[r] && r !in s.credited && r !in s.settled
    requires Credits(s.totals, p, totals')
    ensures AllConserved(s.table, totals', s.credited[r := p], s.meters)
  {
    forall id ensures Balanced(RowOf(s.table, id), AmountIn(totals', id), s.credited[r := p], MeterOf(s.meters, id).total) {
      assert Balanced(RowOf(s.table, id), AmountIn(s.totals, id), s.credited, MeterOf(s.meters, id).total);
      assert AmountIn(totals', id).rx == AmountIn(s.totals, id).rx + AmountIn(p, id).rx;
      if id in s.table { assert RowOk(s.issued, s.settled, id, s.table[id]); }
    }
  }

  lemma ApplyKeeps(s: State, d: Delivery)
    requires Inv(s) && Enabled(s, Apply(d))
    ensures Inv(After(s, Apply(d)))
  {
    var totals' := Credit(s.totals, d.payload);
    CreditIsSum(s.totals, d.payload);
    CreditGrows(s.totals, s.credited, d.request, d.payload, totals');
    CreditBalances(s, d.request, d.payload, totals');
    CreditKeepsAnswers(s, d.request, d.payload, totals');
    CreditKeepsCopies(s.issued, s.settled, s.credited, s.owned, d.request, d.payload);
  }

  lemma CreditKeepsCopies(issued: map<Id, Payload>, settled: set<Id>, credited: map<Id, Payload>, owned: set<Id>, r: Id, p: Payload)
    requires CopiesOk(issued, credited) && CreditedFit(credited, owned) && settled <= credited.Keys
    requires r in issued && issued[r] == p && Fits(p) && p.Keys <= owned
    ensures CopiesOk(issued, credited[r := p]) && CreditedFit(credited[r := p], owned) && settled <= credited[r := p].Keys
  {
  }

  lemma CreditKeepsAnswers(s: State, r: Id, p: Payload, totals': Payload)
    requires AnswersOk(s.totals, s.credited, s.acks, s.inbox) && AcknowledgedOk(s.table, s.totals)
    requires r !in s.credited && Credits(s.totals, p, totals') && forall id :: id in p ==> p[id].Natural()
    requires forall id :: AmountIn(s.totals, id).AtMost(AmountIn(totals', id))
    ensures AnswersOk(totals', s.credited[r := p], s.acks, s.inbox) && AcknowledgedOk(s.table, totals')
  {
    forall q, answer | Fair(s.totals, s.credited, q, answer) ensures Fair(totals', s.credited[r := p], q, answer) {
      FairStays(s.totals, s.credited, r, p, totals', q, answer);
    }
  }

  lemma AnswerIsFair(totals: Payload, credited: map<Id, Payload>, r: Id)
    requires LedgerOk(totals, credited) && r in credited
    ensures Fair(totals, credited, r, TotalsFor(totals, credited[r]))
  {
  }

  // ---------------------------------------------------------------- acknowledging

  /** Every answer the server can give fits the frozen rows: it is accepted, or finds nothing to release. */
  lemma AnswersFit(s: State, r: Id, answer: Payload)
    requires Inv(s) && Fair(s.totals, s.credited, r, answer)
    ensures TrafficStore.Acknowledge(s.table, r, answer).Ok?
    ensures r in s.settled ==> Frozen(s.table, r) == {}
    ensures r !in s.settled ==> Frozen(s.table, r) == answer.Keys
  {
    assert forall id :: id in s.table ==> RowOk(s.issued, s.settled, id, s.table[id]);
    if r in s.settled {
      assert Frozen(s.table, r) == {};
    } else {
      FrozenIsIssued(s.table, s.issued, s.settled, r);
      assert |answer| == |answer.Keys|;
    }
  }

  /** The table after an acknowledgement, row by row. */
  ghost predicate Released(t: Table, r: Id, ack: Payload, t': Table) {
    && t'.Keys == t.Keys
    && forall id :: id in t ==>
         if t[id].request == Some(r) then id in ack && t'[id] == Release(t[id], ack[id]) else t'[id] == t[id]
  }

  lemma AcknowledgeReleases(t: Table, r: Id, ack: Payload)
    requires TrafficStore.Acknowledge(t, r, ack).Ok?
    ensures Released(t, r, ack, TrafficStore.Acknowledge(t, r, ack).value)
  {
    assert forall id :: id in Frozen(t, r) <==> id in t && t[id].request == Some(r);
  }

  lemma ReleaseKeepsRows(t: Table, issued: map<Id, Payload>, settled: set<Id>, r: Id, ack: Payload, t': Table)
    requires RowsOk(t, issued, settled) && StillFrozen(t, issued, settled) && Released(t, r, ack, t')
    ensures RowsOk(t', issued, settled + {r}) && StillFrozen(t', issued, settled + {r})
  {
    forall id | id in t' ensures RowOk(issued, settled + {r}, id, t'[id]) {
      assert RowOk(issued, settled, id, t[id]);
    }
  }

  lemma ReleaseKeepsBalance(s: State, r: Id, ack: Payload, t: Table)
    requires RowsOk(s.table, s.issued, s.settled) && r in s.credited && Released(s.table, r, ack, t)
    requires AllConserved(s.table, s.totals, s.credited, s.meters) && ReadingsOk(s.table, s.meters)
    ensures AllConserved(t, s.totals, s.credited, s.meters) && ReadingsOk(t, s.meters)
  {
    forall id
      ensures Balanced(RowOf(t, id), AmountIn(s.totals, id), s.credited, MeterOf(s.meters, id).total)
      ensures RowOf(t, id).observed == MeterOf(s.meters, id).last
    {
      assert Balanced(RowOf(s.table, id), AmountIn(s.totals, id), s.credited, MeterOf(s.meters, id).total);
      assert RowOf(s.table, id).observed == MeterOf(s.meters, id).last;
    }
  }

  lemma AcknowledgeKeeps(s: State, f: Flush, a: Delivery)
    requires Inv(s) && Enabled(s, Acknowledge(f, a))
    ensures Inv(After(s, Acknowledge(f, a)))
  {
    assert Fair(s.totals, s.credited, a.request, a.payload);
    AcknowledgeReleases(s.table, a.request, a.payload);
    ConfirmKeeps(s, f, a, TrafficStore.Acknowledge(s.table, a.request, a.payload).value);
  }

  lemma ConfirmKeeps(s: State, f: Flush, a: Delivery, t: Table)
    requires Inv(s) && Holds(s.held, f, a.request) && Fair(s.totals, s.credited, a.request, a.payload) && Released(s.table, a.request, a.payload, t)
    ensures Inv(Confirm(s, f, a.request, t))
  {
    ReleaseKeepsRows(s.table, s.issued, s.settled, a.request, a.payload, t);
    ReleaseKeepsBalance(s, a.request, a.payload, t);
    ReleaseKeepsAcknowledged(s.table, s.totals, s.credited, a, t);
    SettledOutbox(s, f, a.request);
  }

  lemma SettledOutbox(s: State, f: Flush, r: Id)
    requires OutboxOk(s.outbox, s.issued, s.settled, s.late, s.contested, s.held) && HeldOk(s.issued, s.settled, s.held) && Holds(s.held, f, r)
    ensures var held := s.held[Hand(f, r) := Confirmed];
            OutboxOk(s.outbox, s.issued, s.settled + {r}, s.late, s.contested, held) && HeldOk(s.issued, s.settled + {r}, held)
  {
    var held := s.held[Hand(f, r) := Confirmed];
    forall q | q in s.outbox ensures MessageOk(s.issued, s.settled + {r}, s.late, s.contested, held, q, s.outbox[q]) {
      assert MessageOk(s.issued, s.settled, s.late, s.contested, s.held, q, s.outbox[q]);
    }
  }

  lemma ReleaseKeepsAcknowledged(t: Table, totals: Payload, credited: map<Id, Payload>, a: Delivery, t': Table)
    requires AcknowledgedOk(t, totals) && Fair(totals, credited, a.request, a.payload) && Released(t, a.request, a.payload, t')
    ensures AcknowledgedOk(t', totals)
  {
  }

  // ---------------------------------------------------------------- every step, every run

  lemma StepKeepsInv(s: State, step: Step)
    requires Inv(s) && Enabled(s, step)
    ensures Inv(After(s, step))
  {
    if OutboxStep(step) {
      OutboxStepKeeps(s, step);
    } else if step.Observe? || step.Prepare? || step.ListPrepared? || step.Leave? || step.Crash? {
      AgentStepKeeps(s, step);
    } else {
      ServerStepKeeps(s, step);
    }
  }

  lemma AgentStepKeeps(s: State, step: Step)
    requires Inv(s) && Enabled(s, step) && (step.Observe? || step.Prepare? || step.ListPrepared? || step.Leave? || step.Crash?)
    ensures Inv(After(s, step))
  {
    match step
    case Observe(records) => ObserveKeeps(s, records);
    case Prepare(f, r, ids) => PrepareKeeps(s, f, r, ids);
    case ListPrepared(f) => ListKeeps(s, f);
    case Leave(f) => FewerHeld(s, Without(s.held, f));
    case Crash => FewerHeld(s, map[]);
  }

  lemma AnswerKeeps(s: State, r: Id)
    requires Inv(s) && r in s.credited
    ensures Inv(After(s, Answer(r)))
  {
    AnswerIsFair(s.totals, s.credited, r);
  }

  lemma ServerStepKeeps(s: State, step: Step)
    requires Inv(s) && Enabled(s, step)
    requires step.Send? || step.Own? || step.Apply? || step.Answer? || step.Replay? || step.CleanInbox? || step.Acknowledge?
    ensures Inv(After(s, step))
  {
    match step
    case Apply(d) => ApplyKeeps(s, d);
    case Answer(r) => AnswerKeeps(s, r);
    case Acknowledge(f, a) => AcknowledgeKeeps(s, f, a);
    case _ => NetworkStepKeeps(s, step);
  }

  /** Steps about one row of the outbox, or about the message of it that a flush holds. */
  predicate OutboxStep(step: Step) {
    || step.Enqueue? || step.Lease? || step.Requeue? || step.MarkAcked? || step.Fail? || step.Skip? || step.CleanOutbox? || step.Redact?
  }

  lemma OutboxStepKeeps(s: State, step: Step)
    requires Inv(s) && Enabled(s, step) && OutboxStep(step)
    ensures Inv(After(s, step))
  {
    OutboxStaysOk(s, step);
    var s' := After(s, step);
    assert s' == s.(outbox := s'.outbox, held := s'.held, late := s'.late, contested := s'.contested);
    OutboxMayChange(s, s'.outbox, s'.held, s'.late, s'.contested);
  }

  lemma OutboxMayChange(s: State, outbox: map<Id, Message>, held: map<Hand, Hold>, late: set<Id>, contested: set<Id>)
    requires Inv(s) && OutboxOk(outbox, s.issued, s.settled, late, contested, held) && HeldOk(s.issued, s.settled, held)
    ensures Inv(s.(outbox := outbox, held := held, late := late, contested := contested))
  {
  }

  lemma OutboxStaysOk(s: State, step: Step)
    requires OutboxOk(s.outbox, s.issued, s.settled, s.late, s.contested, s.held) && ListedOk(s.issued, s.listed)
    requires HeldOk(s.issued, s.settled, s.held) && Enabled(s, step) && OutboxStep(step)
    ensures OutboxOk(After(s, step).outbox, s.issued, s.settled, After(s, step).late, After(s, step).contested, After(s, step).held)
    ensures HeldOk(s.issued, s.settled, After(s, step).held)
  {
    var r, s' := step.request, After(s, step);
    if r in s.outbox { assert MessageOk(s.issued, s.settled, s.late, s.contested, s.held, r, s.outbox[r]); }
    RowStaysOk(s, step);
    OneRowStep(s, step);
    OneHandStep(s, step);
    OneRowChanged(s, s', r);
  }

  /** Who lets go of a message that the other flush does not hold leaves it to nobody. */
  lemma LastHolder(held: map<Hand, Hold>, f: Flush, r: Id)
    requires Holds(held, f, r) && !Holds(held, f.Other(), r)
    ensures NobodyHolds(HeldAfterFailure(held, f, r), r)
  {
    forall h | h in HeldAfterFailure(held, f, r) && h.request == r ensures held[h].Confirmed? {
      assert h == Hand(h.flush, r) && (h.flush == f || h.flush == f.Other());
    }
  }

  /** The row that a step is about stays sound. */
  lemma RowStaysOk(s: State, step: Step)
    requires ListedOk(s.issued, s.listed) && HeldOk(s.issued, s.settled, s.held) && Enabled(s, step) && OutboxStep(step)
    requires step.request in s.outbox ==>
               MessageOk(s.issued, s.settled, s.late, s.contested, s.held, step.request, s.outbox[step.request])
    ensures var s' := After(s, step);
            step.request in s'.outbox ==>
              MessageOk(s.issued, s.settled, s'.late, s'.contested, s'.held, step.request, s'.outbox[step.request])
  {
    if step.Fail? {
      if step.request in s.outbox {
        FailedRowOk(s, step.flush, step.request, step.elapsed);
      }
    }
  }

  lemma FailedRowOk(s: State, f: Flush, r: Id, elapsed: nat)
    requires Holds(s.held, f, r) && r in s.outbox && MessageOk(s.issued, s.settled, s.late, s.contested, s.held, r, s.outbox[r])
    ensures MessageOk(s.issued, s.settled, LateAfter(s.late, r, elapsed), ContestedAfter(s.contested, s.held, f, r, elapsed),
                      HeldAfterFailure(s.held, f, r), r, s.outbox[r].(status := AfterFailure(elapsed)))
  {
    assert Hand(f, r) in s.held;
    if !Holds(s.held, f.Other(), r) { LastHolder(s.held, f, r); }
  }

  predicate ChangesOnly(outbox: map<Id, Message>, outbox': map<Id, Message>, r: Id) {
    outbox' == outbox || outbox' == outbox - {r} || (r in outbox' && outbox' == outbox[r := outbox'[r]])
  }

  /** Only the row of the step's own request changes. */
  lemma OneRowStep(s: State, step: Step)
    requires Enabled(s, step) && OutboxStep(step)
    ensures ChangesOnly(s.outbox, After(s, step).outbox, step.request)
    ensures After(s, step).settled == s.settled && s.late <= After(s, step).late && s.contested <= After(s, step).contested
  {
  }

  /** Only a message of the step's own request is taken in hand. */
  lemma OneHandStep(s: State, step: Step)
    requires Enabled(s, step) && OutboxStep(step)
    ensures var held' := After(s, step).held;
            forall h :: h in held' && !(step.Lease? && h == Hand(step.flush, step.request)) ==> h in s.held && held'[h] == s.held[h]
    ensures step.Lease? ==>
              After(s, step).held == s.held[Hand(step.flush, step.request) := Leased(s.outbox[step.request].payload)]
  {
  }

  lemma OneRowChanged(s: State, s': State, r: Id)
    requires OutboxOk(s.outbox, s.issued, s.settled, s.late, s.contested, s.held) && s.late <= s'.late && s.contested <= s'.contested
    requires ChangesOnly(s.outbox, s'.outbox, r)
    requires forall h :: h in s'.held && h.request != r ==> h in s.held && s'.held[h] == s.held[h]
    requires r in s'.outbox ==> MessageOk(s.issued, s.settled, s'.late, s'.contested, s'.held, r, s'.outbox[r])
    ensures OutboxOk(s'.outbox, s.issued, s.settled, s'.late, s'.contested, s'.held)
  {
    forall q | q in s'.outbox && q != r ensures MessageOk(s.issued, s.settled, s'.late, s'.contested, s'.held, q, s'.outbox[q]) {
      assert MessageOk(s.issued, s.settled, s.late, s.contested, s.held, q, s.outbox[q]);
    }
  }

  lemma NetworkStepKeeps(s: State, step: Step)
    requires Inv(s) && Enabled(s, step) && (step.Send? || step.Own? || step.Replay? || step.CleanInbox?)
    ensures Inv(After(s, step))
  {
    if step.Send? {
      assert s.held[Hand(step.flush, step.request)].payload.value == s.issued[step.request];
    } else if step.Replay? || step.CleanInbox? {
      AnswersStayOk(s.totals, s.credited, s.acks, s.inbox, step.request);
    }
  }

  lemma AnswersStayOk(totals: Payload, credited: map<Id, Payload>, acks: set<Delivery>, inbox: map<Id, Payload>, r: Id)
    requires AnswersOk(totals, credited, acks, inbox) && r in inbox
    ensures AnswersOk(totals, credited, acks + {Delivery(r, inbox[r])}, inbox)
    ensures AnswersOk(totals, credited, acks, inbox - {r})
  {
  }

  lemma {:induction false} RunKeepsInv(states: seq<State>, steps: seq<Step>, n: nat)
    requires Run(states, steps) && Inv(states[0]) && n <= |steps|
    ensures Inv(states[n])
  {
    if n > 0 {
      RunKeepsInv(states, steps, n - 1);
      assert Happens(states, steps, n - 1);
      StepKeepsInv(states[n - 1], steps[n - 1]);
    }
  }

  lemma InitialInv(s: State)
    requires Init(s)
    ensures Inv(s)
  {
  }

  lemma ReachableInv(s: State)
    requires Reachable(s)
    ensures Inv(s)
  {
    var start :| Init(start) && Leads(start, s);
    var states, steps :| Run(states, steps) && states[0] == start && states[|steps|] == s;
    InitialInv(start);
    RunKeepsInv(states, steps, |steps|);
  }

  /**
   * Conservation: in every reachable state and for every connection, what the server counts plus
   * what the agent still owes, less what it owes although it was credited, is what was observed.
   */
  lemma UsageIsConserved(s: State, id: Id)
    requires Reachable(s)
    ensures Conserved(s, id)
    ensures RowOf(s.table, id).acknowledged.AtMost(AmountIn(s.totals, id)) && AmountIn(s.totals, id).AtMost(MeterOf(s.meters, id).total)
    ensures RowOf(s.table, id).unacknowledged.Natural() && RowOf(s.table, id).unacknowledged.AtMost(CEILING)
  {
    ReachableInv(s);
    BalanceOf(s, id);
  }

  lemma BalanceOf(s: State, id: Id)
    requires RowsOk(s.table, s.issued, s.settled) && AllConserved(s.table, s.totals, s.credited, s.meters)
    requires AcknowledgedOk(s.table, s.totals) && LedgerOk(s.totals, s.credited)
    ensures RowOf(s.table, id).acknowledged.AtMost(AmountIn(s.totals, id))
    ensures RowOf(s.table, id).unacknowledged.Natural() && RowOf(s.table, id).unacknowledged.AtMost(CEILING)
    ensures Conserved(s, id) && AmountIn(s.totals, id).AtMost(MeterOf(s.meters, id).total)
  {
    assert Balanced(RowOf(s.table, id), AmountIn(s.totals, id), s.credited, MeterOf(s.meters, id).total);
    if id in s.table { assert RowOk(s.issued, s.settled, id, s.table[id]); }
  }

  /** Every acknowledgement in the network or the inbox is accepted, and a repeated one changes nothing. */
  lemma AcknowledgementsFit(s: State, ack: Delivery)
    requires Reachable(s)
    requires ack in s.acks || (ack.request in s.inbox && ack.payload == s.inbox[ack.request])
    ensures var r := TrafficStore.Acknowledge(s.table, ack.request, ack.payload);
            r.Ok? && Frozen(r.value, ack.request) == {} && TrafficStore.Acknowledge(r.value, ack.request, ack.payload) == r
  {
    ReachableInv(s);
    AnswersFit(s, ack.request, ack.payload);
    AcknowledgeTwice(s.table, ack.request, ack.payload);
  }

  lemma AcknowledgeTwice(t: Table, r: Id, ack: Payload)
    requires TrafficStore.Acknowledge(t, r, ack).Ok?
    ensures TrafficStore.Acknowledge(TrafficStore.Acknowledge(t, r, ack).value, r, ack) == TrafficStore.Acknowledge(t, r, ack)
    ensures Frozen(TrafficStore.Acknowledge(t, r, ack).value, r) == {}
  {
    var t' := TrafficStore.Acknowledge(t, r, ack).value;
    assert Frozen(t', r) == {};
  }

  /**
   * While the agent waits for a request, its outbox row is absent or live with the frozen payload, unless a
   * failure of it was written late. Then it may be failed; and only if the other flush still held the message
   * at a late failure can it be live again without its payload.
   */
  lemma NoStrandedUsage(s: State, request: Id)
    requires Reachable(s)
    requires request in Requests(s.table) && request in s.outbox
    ensures var m := s.outbox[request];
            && (m.Live() && m.payload.Some? ==> m.payload.value == FrozenPayload(s.table, request))
            && (m.Live() && m.payload.None? ==> request in s.contested)
            && (!m.Live() ==> m.status.Failed? && request in s.late)
  {
    ReachableInv(s);
    RequestsAreIssued(s, request);
    assert MessageOk(s.issued, s.settled, s.late, s.contested, s.held, request, s.outbox[request]);
  }

  lemma RequestsAreIssued(s: State, r: Id)
    requires Inv(s) && r in Requests(s.table)
    ensures r in s.issued && r !in s.settled && FrozenPayload(s.table, r) == s.issued[r] && Frozen(s.table, r) == s.issued[r].Keys
  {
    var id :| id in s.table && s.table[id].request == Some(r);
    assert RowOk(s.issued, s.settled, id, s.table[id]);
    FrozenIsIssued(s.table, s.issued, s.settled, r);
  }
}
