/**
 * The agent's usage queue over its two databases, with two flushes at work, and the server's handler
 * behind the network. Each method is a sequence of steps of the usage machine. Between any two of its
 * statements the other flush, new observations, heartbeats, the network and the server may take any steps
 * of their own, and each method may stop, so what the machine keeps in every reachable state holds after
 * every method, however it ended.
 */
module UsageQueue {
  import opened Ids
  import opened Wrappers
  import opened TrafficStore
  import opened UsageLedger
  import opened UsageMachine
  import Rows = MessageQueue

  /** Request identifiers that were never used. */
  ghost predicate Unused(ids: seq<Id>, issued: map<Id, Payload>) {
    && (forall i :: 0 <= i < |ids| ==> ids[i] != "" && ids[i] !in issued)
    && (forall i, j :: 0 <= i < j < |ids| ==> ids[i] != ids[j])
  }

  lemma StillUnused(ids: seq<Id>, i: nat, issued: set<Id>, issued': set<Id>)
    requires i < |ids| && (forall j, k :: 0 <= j < k < |ids| ==> ids[j] != ids[k]) && forall k :: i <= k < |ids| ==> ids[k] !in issued
    requires issued' * (set r | r in ids) <= issued + {ids[i]}
    ensures forall k :: i < k < |ids| ==> ids[k] !in issued'
  {
    forall k | i < k < |ids| ensures ids[k] !in issued' {
      assert ids[k] in (set r | r in ids);
    }
  }

  lemma NotIssued(r: Id, reserved: set<Id>, issued: map<Id, Payload>, issued': map<Id, Payload>)
    requires r in reserved && r !in issued && issued'.Keys * reserved <= issued.Keys
    ensures r !in issued'
  {
  }

  // ---------------------------------------------------------------- what the others may do

  /** What one flush has in its memory. */
  function Mine<T>(m: map<Hand, T>, f: Flush): map<Hand, T> {
    map h | h in m && h.flush == f :: m[h]
  }

  /** The request has its row, unless it is settled or a failure of it was written late. */
  predicate Covered(s: State, r: Id) {
    r in s.outbox || r in s.settled || r in s.late
  }

  /** Steps of everybody but one flush; request identifiers that it has drawn already are nobody else's. */
  predicate EnvironmentStep(f: Flush, reserved: set<Id>, step: Step) {
    match step
    case Prepare(g, r, _) => g != f && r !in reserved
    case ListPrepared(g) => g != f
    case Enqueue(g, _) => g != f
    case Lease(g, _) => g != f
    case Send(g, _) => g != f
    case Acknowledge(g, _) => g != f
    case MarkAcked(g, _) => g != f
    case Fail(g, _, _) => g != f
    case Skip(g, _) => g != f
    case Leave(g) => g != f
    case Crash => false
    case _ => true
  }

  /** What they leave to a flush: its memory, its identifiers, what was settled and answered, and the rows it relies on. */
  ghost predicate Kept(f: Flush, reserved: set<Id>, s: State, s': State) {
    && Mine(s'.listed, f) == Mine(s.listed, f) && Mine(s'.held, f) == Mine(s.held, f)
    && s.settled <= s'.settled && s.acks <= s'.acks && s'.issued.Keys * reserved <= s.issued.Keys
    && CoversMore(s, s')
  }

  ghost predicate CoversMore(s: State, s': State) {
    forall r :: Covered(s, r) ==> Covered(s', r)
  }

  lemma CoversTwice(a: State, b: State, c: State)
    requires CoversMore(a, b) && CoversMore(b, c)
    ensures CoversMore(a, c)
  {
  }

  ghost predicate AllCovered(s: State, rs: set<Id>) {
    forall r :: r in rs ==> Covered(s, r)
  }

  lemma OneMoreCovered(s: State, s': State, rs: set<Id>, r: Id)
    requires AllCovered(s, rs) && Covered(s', r) && CoversMore(s, s')
    ensures AllCovered(s', rs + {r})
  {
  }

  lemma KeptMemory(f: Flush, reserved: set<Id>, s: State, step: Step)
    requires Enabled(s, step) && EnvironmentStep(f, reserved, step)
    ensures Mine(After(s, step).listed, f) == Mine(s.listed, f) && Mine(After(s, step).held, f) == Mine(s.held, f)
  {
    match step
    case Prepare(g, r, _) => OthersOnly(s.listed, After(s, step).listed, f);
    case ListPrepared(g) =>
      OthersOnly(s.listed, After(s, step).listed, f);
      OthersOnly(s.held, After(s, step).held, f);
    case Lease(g, r) => OthersOnly(s.held, After(s, step).held, f);
    case Acknowledge(g, a) => OthersOnly(s.held, After(s, step).held, f);
    case MarkAcked(g, r) => OthersOnly(s.held, After(s, step).held, f);
    case Fail(g, r, _) => OthersOnly(s.held, After(s, step).held, f);
    case Skip(g, r) => OthersOnly(s.held, After(s, step).held, f);
    case Leave(g) =>
      OthersOnly(s.listed, After(s, step).listed, f);
      OthersOnly(s.held, After(s, step).held, f);
    case _ =>
  }

  lemma OthersOnly<T>(m: map<Hand, T>, m': map<Hand, T>, f: Flush)
    requires forall h: Hand :: h.flush == f ==> (h in m' <==> h in m) && (h in m ==> m'[h] == m[h])
    ensures Mine(m', f) == Mine(m, f)
  {
  }

  lemma KeptRows(s: State, step: Step, r: Id)
    requires Inv(s) && Enabled(s, step) && Covered(s, r)
    ensures Covered(After(s, step), r)
  {
    HistoryGrows(s, step);
    if step.CleanOutbox? {
      if step.request == r { assert MessageOk(s.issued, s.settled, s.late, s.contested, s.held, r, s.outbox[r]); }
    } else {
      RowsStay(s, step);
    }
  }

  lemma HistoryGrows(s: State, step: Step)
    requires Enabled(s, step)
    ensures var s' := After(s, step); s.settled <= s'.settled && s.late <= s'.late && s.acks <= s'.acks
  {
  }

  lemma RowsStay(s: State, step: Step)
    requires Enabled(s, step) && !step.CleanOutbox?
    ensures s.outbox.Keys <= After(s, step).outbox.Keys
  {
    if OutboxStep(step) { OneRowStep(s, step); }
  }

  lemma KeptHistory(f: Flush, reserved: set<Id>, s: State, step: Step)
    requires Enabled(s, step) && EnvironmentStep(f, reserved, step)
    ensures var s' := After(s, step); s.settled <= s'.settled && s.acks <= s'.acks && s'.issued.Keys * reserved <= s.issued.Keys
  {
    HistoryGrows(s, step);
    if !step.Prepare? { assert After(s, step).issued == s.issued; }
  }

  lemma EnvironmentKeeps(f: Flush, reserved: set<Id>, s: State, step: Step)
    requires Inv(s) && Enabled(s, step) && EnvironmentStep(f, reserved, step)
    ensures Kept(f, reserved, s, After(s, step))
  {
    KeptMemory(f, reserved, s, step);
    KeptHistory(f, reserved, s, step);
    forall r | Covered(s, r) ensures Covered(After(s, step), r) { KeptRows(s, step, r); }
  }

  lemma KeptTwice(f: Flush, reserved: set<Id>, a: State, b: State, c: State)
    requires Kept(f, reserved, a, b) && Kept(f, reserved, b, c)
    ensures Kept(f, reserved, a, c)
  {
  }

  /** Enqueueing and sending leave all that alone as well. */
  lemma EnqueueKeeps(f: Flush, reserved: set<Id>, s: State, r: Id)
    requires Enabled(s, Enqueue(f, r))
    ensures Kept(f, reserved, s, After(s, Enqueue(f, r))) && r in After(s, Enqueue(f, r)).outbox
    ensures After(s, Enqueue(f, r)).table == s.table && s.outbox.Keys <= After(s, Enqueue(f, r)).outbox.Keys
  {
    var s' := After(s, Enqueue(f, r));
    assert s' == s.(outbox := s'.outbox) && s.outbox.Keys <= s'.outbox.Keys;
  }

  lemma SendKeeps(f: Flush, s: State, r: Id)
    requires Enabled(s, Send(f, r))
    ensures Kept(f, {}, s, After(s, Send(f, r)))
  {
  }

  /** What a flush holds of all other requests. */
  ghost predicate HoldsOthers(held: map<Hand, Hold>, held': map<Hand, Hold>, f: Flush, r: Id) {
    forall h :: h in held && h.flush == f && h.request != r ==> h in held' && held'[h] == held[h]
  }

  lemma KeptHolds(f: Flush, s: State, s': State, r: Id)
    requires Mine(s'.held, f) == Mine(s.held, f)
    ensures HoldsOthers(s.held, s'.held, f, r) && (Hand(f, r) in s'.held <==> Hand(f, r) in s.held)
    ensures Hand(f, r) in s.held ==> s'.held[Hand(f, r)] == s.held[Hand(f, r)]
  {
    StillMine(s.held, s'.held, f, r);
    forall h | h in s.held && h.flush == f ensures h in s'.held && s'.held[h] == s.held[h] {
      StillMine(s.held, s'.held, f, h.request);
      assert h == Hand(f, h.request);
    }
  }

  /** Since the n-th step nobody but the flush took one. */
  ghost predicate Alone(f: Flush, steps: seq<Step>, n: nat) {
    forall i :: n <= i < |steps| ==> !EnvironmentStep(f, {}, steps[i])
  }

  /** A message that a flush holds stays in its hands, and an entry of its list in its list. */
  lemma StillMine<T>(m: map<Hand, T>, m': map<Hand, T>, f: Flush, r: Id)
    requires Mine(m', f) == Mine(m, f)
    ensures Hand(f, r) in m' <==> Hand(f, r) in m
    ensures Hand(f, r) in m ==> m'[Hand(f, r)] == m[Hand(f, r)]
  {
    assert Hand(f, r) in m' <==> Hand(f, r) in Mine(m', f);
    assert Hand(f, r) in m <==> Hand(f, r) in Mine(m, f);
    if Hand(f, r) in m { assert Mine(m', f)[Hand(f, r)] == Mine(m, f)[Hand(f, r)]; }
  }

  // ---------------------------------------------------------------- leasing

  const NODE: Id := "node"
  const LEASE_MS := 60_000

  function StatusOf(status: Status): Rows.Status {
    match status
    case Pending => Rows.Pending
    case InFlight => Rows.InFlight
    case Acked => Rows.Acked
    case Failed => Rows.Failed
  }

  /** The outbox as the message queue's selection sees it. */
  function AsRows(outbox: map<Id, Message>, available: map<Id, int>): Rows.Table {
    map r | r in outbox ::
      Rows.Key(NODE, r) := Rows.Message("traffic_batch", StatusOf(outbox[r].status), if r in available then available[r] else 0, None, 0, "", "", "")
  }

  predicate Due(outbox: map<Id, Message>, available: map<Id, int>, now: int, r: Id) {
    r in outbox && outbox[r].status.Pending? && (if r in available then available[r] else 0) <= now
  }

  /** Of the rows that are due, a hundred, or all. */
  ghost predicate AllDue(outbox: map<Id, Message>, available: map<Id, int>, now: int, batch: seq<Id>) {
    && (forall i :: 0 <= i < |batch| ==> Due(outbox, available, now, batch[i]))
    && (forall r :: Due(outbox, available, now, r) && r !in batch ==> |batch| == 100)
  }

  /** The rows of a batch are put off, and no others. */
  ghost predicate PutOff(available: map<Id, int>, available': map<Id, int>, batch: seq<Id>, until: int) {
    && (forall r :: r in batch ==> r in available' && available'[r] == until)
    && (forall r :: r in available && r !in batch ==> r in available' && available'[r] == available[r])
  }

  function KeysOf(batch: seq<Id>): seq<Rows.Key> {
    seq(|batch|, i requires 0 <= i < |batch| => Rows.Key(NODE, batch[i]))
  }

  function LeasedRows(outbox: map<Id, Message>, batch: seq<Id>): map<Id, Message> {
    map r | r in outbox :: if r in batch then outbox[r].(status := InFlight) else outbox[r]
  }

  lemma LeaseNext(outbox: map<Id, Message>, batch: seq<Id>, i: nat)
    requires i < |batch| && batch[i] in outbox && Distinct(batch)
    ensures LeasedRows(outbox, batch[..i])[batch[i]] == outbox[batch[i]]
    ensures LeasedRows(outbox, batch[..i + 1]) == LeasedRows(outbox, batch[..i])[batch[i] := outbox[batch[i]].(status := InFlight)]
  {
    assert batch[..i + 1] == batch[..i] + [batch[i]];
  }

  // ---------------------------------------------------------------- messages in hand

  ghost predicate Distinct(ids: seq<Id>) {
    forall i, j :: 0 <= i < j < |ids| ==> ids[i] != ids[j]
  }

  ghost predicate AllIn(ids: seq<Id>, s: set<Id>) {
    forall id :: id in ids ==> id in s
  }

  /** The flush holds all messages of its batch from the i-th on. */
  ghost predicate AllHeld(held: map<Hand, Hold>, f: Flush, batch: seq<Id>, i: nat) {
    forall k :: i <= k < |batch| ==> Holds(held, f, batch[k])
  }

  lemma OneMoreHeld(held: map<Hand, Hold>, held': map<Hand, Hold>, f: Flush, batch: seq<Id>, r: Id)
    requires AllHeld(held, f, batch, 0) && Holds(held', f, r) && HoldsOthers(held, held', f, r)
    ensures AllHeld(held', f, batch + [r], 0)
  {
    forall k | 0 <= k < |batch| ensures Holds(held', f, batch[k]) {
      assert Holds(held, f, batch[k]);
    }
  }

  lemma StillAllHeld(held: map<Hand, Hold>, held': map<Hand, Hold>, f: Flush, batch: seq<Id>, i: nat)
    requires AllHeld(held, f, batch, i) && Mine(held', f) == Mine(held, f)
    ensures AllHeld(held', f, batch, i)
  {
    forall k | i <= k < |batch| ensures Holds(held', f, batch[k]) {
      assert Holds(held, f, batch[k]);
      StillMine(held, held', f, batch[k]);
    }
  }

  lemma NextHeld(held: map<Hand, Hold>, held': map<Hand, Hold>, f: Flush, batch: seq<Id>, i: nat)
    requires i < |batch| && Distinct(batch) && AllHeld(held, f, batch, i) && HoldsOthers(held, held', f, batch[i])
    ensures AllHeld(held', f, batch, i + 1)
  {
    forall k | i < k < |batch| ensures Holds(held', f, batch[k]) {
      assert Holds(held, f, batch[k]);
    }
  }

  lemma HoldsTwice(a: map<Hand, Hold>, b: map<Hand, Hold>, c: map<Hand, Hold>, f: Flush, r: Id)
    requires HoldsOthers(a, b, f, r) && HoldsOthers(b, c, f, r)
    ensures HoldsOthers(a, c, f, r)
  {
  }

  // ---------------------------------------------------------------- who owes something

  function EligibleIds(t: Table): set<Id> {
    set id | id in t && Eligible(t[id])
  }

  /** How many connections came to owe something, unfrozen, since the n-th state of a run. */
  ghost function Arrivals(states: seq<State>, n: nat): nat {
    if |states| <= n + 1 || |states| < 2 then 0
    else
      var last := |states| - 1;
      Arrivals(states[..last], n) + Gain(states[last - 1].table, states[last].table)
  }

  function Gain(before: Table, after: Table): nat {
    |EligibleIds(after) - EligibleIds(before)|
  }

  lemma ArrivalsOfOne(states: seq<State>, n: nat, s: State)
    requires n < |states|
    ensures Arrivals(states + [s], n) == Arrivals(states, n) + Gain(states[|states| - 1].table, s.table)
  {
    var states' := states + [s];
    assert states'[..|states|] == states && states'[|states| - 1] == states[|states| - 1];
  }

  /** No step raises what is left of the backlog, and one that only freezes connections lowers it. */
  lemma BacklogStep(states: seq<State>, n: nat, s: State)
    requires n < |states|
    ensures var t := states[|states| - 1].table;
            && |EligibleIds(s.table)| - Arrivals(states + [s], n) <= |EligibleIds(t)| - Arrivals(states, n)
            && (EligibleIds(s.table) < EligibleIds(t) ==>
                  |EligibleIds(s.table)| - Arrivals(states + [s], n) < |EligibleIds(t)| - Arrivals(states, n))
  {
    ArrivalsOfOne(states, n, s);
    Arrived(EligibleIds(states[|states| - 1].table), EligibleIds(s.table));
  }

  lemma Arrived(a: set<Id>, b: set<Id>)
    ensures |b| <= |a| + |b - a|
    ensures b < a ==> |b| < |a| && b - a == {}
  {
    assert |b| == |b * a| + |b - a| by { assert b == b * a + (b - a); }
    Smaller(b * a, a);
    if b < a {
      assert b - a == {} && |a - b| == |a| - |b| && a - b != {};
    }
  }

  lemma Smaller(a: set<Id>, b: set<Id>)
    requires a <= b
    ensures |a| <= |b|
  {
    assert |b - a| == |b| - |a|;
  }

  lemma ListedNow(s: State, f: Flush)
    ensures var listed := Begin(s, f).listed;
            forall r :: r in Requests(s.table) ==> Hand(f, r) in listed && listed[Hand(f, r)] == FrozenPayload(s.table, r)
  {
    forall r | r in Requests(s.table) ensures Hand(f, r) in ListedBy(f, s.table) && ListedBy(f, s.table)[Hand(f, r)] == FrozenPayload(s.table, r) {
    }
  }

  lemma NothingToFreeze(t: Table, r: Id)
    requires FirstEligible(t, USAGE_RECORDS_PER_MESSAGE, [])
    ensures Freeze(t, r, {}) == t
    ensures EligibleIds(t) == {}
  {
  }

  lemma PreparedRequests(s: State, f: Flush, r: Id, ids: seq<Id>)
    requires Enabled(s, Prepare(f, r, ids))
    ensures var s1 := Issue(s, f, r, Freeze(s.table, r, set id | id in ids));
            && After(s, Prepare(f, r, ids)) == s1 && s1.issued.Keys == s.issued.Keys + {r} && s1.outbox == s.outbox && s1.settled == s.settled && s1.late == s.late
            && s1.listed == s.listed[Hand(f, r) := FrozenPayload(s1.table, r)]
            && Requests(s1.table) <= Requests(s.table) + {r}
            && EligibleIds(s1.table) < EligibleIds(s.table)
  {
    var t := Freeze(s.table, r, set id | id in ids);
    assert ids[0] in EligibleIds(s.table) && ids[0] !in EligibleIds(t);
    forall q | q in Requests(t) ensures q in Requests(s.table) + {r} {
      var id :| id in t && t[id].request == Some(q);
      assert id in s.table && (t[id].request == Some(r) || t[id] == s.table[id]);
    }
  }

  // ---------------------------------------------------------------- answers

  /** An answer as the records of a message. */
  method RecordsOf(p: Payload) returns (records: seq<Record>)
    requires forall id :: id in p ==> id != "" && p[id].Natural()
    ensures NamesOnce(records) && MapOf(records) == p
  {
    records := [];
    var left := p.Keys;
    while left != {}
      invariant left <= p.Keys && NamesOnce(records) && MapOf(records) == p - left
      decreases left
    {
      var id :| id in left;
      OneLess(p, left, id);
      NamedOnceMore(records, Record(id, p[id]));
      records, left := records + [Record(id, p[id])], left - {id};
    }
    assert p - {} == p;
  }

  lemma NamedOnceMore(records: seq<Record>, r: Record)
    requires NamesOnce(records) && r.id !in MapOf(records) && r.id != "" && r.bytes.Natural()
    ensures NamesOnce(records + [r]) && MapOf(records + [r]) == MapOf(records)[r.id := r.bytes]
  {
    var records' := records + [r];
    assert records'[..|records|] == records && records'[..|records| + 1] == records';
    ValidSoFar(records', |records|);
  }

  lemma OneLess(p: Payload, left: set<Id>, id: Id)
    requires id in left && left <= p.Keys
    ensures id !in p - left && (p - left)[id := p[id]] == p - (left - {id})
  {
  }

  lemma AnswersAreNamed(s: State, a: Delivery)
    requires Reachable(s) && a in s.acks
    ensures forall id :: id in a.payload ==> id != "" && a.payload[id].Natural()
  {
    ReachableInv(s);
    assert Fair(s.totals, s.credited, a.request, a.payload) && s.credited[a.request] == s.issued[a.request];
  }

  lemma AloneBefore(f: Flush, steps: seq<Step>, steps': seq<Step>, n: nat)
    requires steps <= steps' && Alone(f, steps', n)
    ensures Alone(f, steps, n)
  {
  }

  lemma AnswersAreAccepted(s: State, f: Flush, a: Delivery)
    requires Reachable(s) && HoldsPayload(s.held, f, a.request) && a in s.acks
    ensures TrafficStore.Acknowledge(s.table, a.request, a.payload).Ok? && Enabled(s, Acknowledge(f, a))
    ensures After(s, Acknowledge(f, a)) == Confirm(s, f, a.request, TrafficStore.Acknowledge(s.table, a.request, a.payload).value)
  {
    AcknowledgementsFit(s, a);
  }

  // ---------------------------------------------------------------- what a flush leaves in the history

  /** Whatever a connection owes is frozen under a request. */
  ghost predicate NothingOwed(t: Table) {
    forall id :: id in t && t[id].request.None? ==> t[id].unacknowledged == NOTHING
  }

  lemma AllIsFrozen(s: State)
    requires Inv(s) && EligibleIds(s.table) == {}
    ensures NothingOwed(s.table)
  {
    forall id | id in s.table && s.table[id].request.None? ensures s.table[id].unacknowledged == NOTHING {
      assert id !in EligibleIds(s.table);
      assert RowOk(s.issued, s.settled, id, s.table[id]);
    }
  }

  /** The state in which a flush has leased, and the rows as the queue saw them. */
  datatype Leasing = Leasing(at: nat, rows: Rows.Table)

  /** The messages have been leased one after the other. */
  ghost predicate Leases(f: Flush, before: seq<Step>, after: seq<Step>, batch: seq<Id>) {
    before <= after && |after| == |before| + |batch| && forall i :: 0 <= i < |batch| ==> after[|before| + i] == Lease(f, batch[i])
  }

  /** Then and there exactly the first hundred due rows were leased. */
  ghost predicate LeasedAt(f: Flush, states: seq<State>, steps: seq<Step>, l: Leasing, now: int, batch: seq<Id>) {
    && l.at + |batch| <= |steps| < |states| && Leases(f, steps[..l.at], steps[..l.at + |batch|], batch)
    && (exists available :: l.rows == AsRows(states[l.at].outbox, available))
    && Rows.FirstLeasable(l.rows, NODE, now, 100, KeysOf(batch))
  }

  lemma LeasedThere(f: Flush, states1: seq<State>, states: seq<State>, steps1: seq<Step>, steps2: seq<Step>, steps: seq<Step>,
                    l: Leasing, available: map<Id, int>, now: int, batch: seq<Id>)
    requires |states1| == |steps1| + 1 && states1 <= states && |steps| < |states| && steps2 <= steps
    requires Leases(f, steps1, steps2, batch) && Rows.FirstLeasable(l.rows, NODE, now, 100, KeysOf(batch))
    requires l.at == |steps1| && l.rows == AsRows(states1[l.at].outbox, available)
    ensures LeasedAt(f, states, steps, l, now, batch)
  {
    assert steps[..l.at] == steps1 && steps[..l.at + |batch|] == steps2;
    assert states[l.at] == states1[l.at];
  }

  lemma OneMoreLeased(f: Flush, before: seq<Step>, between: seq<Step>, after: seq<Step>, batch: seq<Id>, i: nat)
    requires i < |batch| && Leases(f, before, between, batch[..i]) && after == between + [Lease(f, batch[i])]
    ensures Leases(f, before, after, batch[..i + 1])
  {
  }

  ghost predicate Onward(steps: seq<Step>, steps': seq<Step>, states: seq<State>, states': seq<State>) {
    steps <= steps' && states <= states'
  }

  lemma OnwardTwice(a: seq<Step>, b: seq<Step>, c: seq<Step>, x: seq<State>, y: seq<State>, z: seq<State>)
    requires Onward(a, b, x, y) && Onward(b, c, y, z)
    ensures Onward(a, c, x, z)
  {
  }

  ghost predicate FailedLast(steps: seq<Step>, f: Flush, r: Id) {
    steps != [] && steps[|steps| - 1].Fail? && steps[|steps| - 1].flush == f && steps[|steps| - 1].request == r
  }

  // ---------------------------------------------------------------- the agent

  class Queue {
    const store: Store
    var outbox: map<Id, Message>
    var available: map<Id, int>    // when the rows may be leased
    var rest: State            // memory of the flushes, network, server and history
    ghost var states: seq<State>
    ghost var steps: seq<Step>

    constructor (store: Store, owned: set<Id>, foreign: set<Id>)
      requires store.table == map[] && owned !! foreign
      ensures this.store == store && Valid() && rest == Initial(owned, foreign)
    {
      this.store, outbox, available, rest := store, map[], map[], Initial(owned, foreign);
      states, steps := [Initial(owned, foreign)], [];
    }

    function Abstract(): State
      reads this, store
    {
      rest.(table := store.table, outbox := outbox)
    }

    ghost predicate Valid()
      reads this, store
    {
      Run(states, steps) && Init(states[0]) && states[|steps|] == Abstract()
    }

    lemma IsReachable()
      requires Valid()
      ensures Reachable(Abstract()) && Inv(Abstract())
    {
      assert Leads(states[0], Abstract());
      ReachableInv(Abstract());
    }

    /** The unfrozen connections that owe something, less those that came to do so since the n-th state. */
    ghost function Backlog(n: nat): int
      reads this, store
    {
      |EligibleIds(store.table)| - Arrivals(states, n)
    }

    /** Notes that the databases have just taken a step of the machine. */
    method Record(before: State, step: Step)
      requires Run(states, steps) && Init(states[0]) && before == states[|steps|] && Enabled(before, step)
      requires After(before, step).table == store.table && After(before, step).outbox == outbox
      modifies this`rest, this`states, this`steps
      ensures Valid() && Abstract() == After(before, step) && steps == old(steps) + [step] && states == old(states) + [After(before, step)]
      ensures Onward(old(steps), steps, old(states), states)
    {
      RunExtends(states, steps, step);
      rest := After(before, step);
      states, steps := states + [rest], steps + [step];
    }

    /** Any steps of the others. */
    method Interfere(f: Flush, reserved: set<Id>, ghost n: nat)
      requires Valid() && n <= |steps|
      modifies this, store
      ensures Valid() && Onward(old(steps), steps, old(states), states)
      ensures Kept(f, reserved, old(Abstract()), Abstract()) && Backlog(n) <= old(Backlog(n))
      ensures Alone(f, steps, n) ==> Abstract() == old(Abstract()) && steps == old(steps)
    {
      var count: int := *;
      if count < 0 { count := 0; }
      for i := 0 to count
        invariant Valid() && Onward(old(steps), steps, old(states), states)
        invariant Kept(f, reserved, old(Abstract()), Abstract()) && Backlog(n) <= old(Backlog(n))
        invariant Alone(f, steps, n) ==> Abstract() == old(Abstract()) && steps == old(steps)
      {
        ghost var before, steps0 := Abstract(), steps;
        InterfereOnce(f, reserved, n);
        KeptTwice(f, reserved, old(Abstract()), before, Abstract());
        if Alone(f, steps, n) { AloneBefore(f, steps0, steps, n); }
      }
    }

    method InterfereOnce(f: Flush, reserved: set<Id>, ghost n: nat)
      requires Valid() && n <= |steps|
      modifies this, store
      ensures Valid() && Onward(old(steps), steps, old(states), states)
      ensures Kept(f, reserved, old(Abstract()), Abstract()) && Backlog(n) <= old(Backlog(n))
      ensures Alone(f, steps, n) ==> Abstract() == old(Abstract()) && steps == old(steps)
    {
      var step: Step := *;
      available := *;
      var before := Abstract();
      assert before == old(Abstract());
      if EnvironmentStep(f, reserved, step) && Enabled(before, step) {
        TakeOther(f, reserved, step, n);
      }
    }

    method TakeOther(f: Flush, reserved: set<Id>, step: Step, ghost n: nat)
      requires Valid() && n <= |steps| && EnvironmentStep(f, reserved, step) && Enabled(Abstract(), step)
      modifies this, store
      ensures Valid() && Onward(old(steps), steps, old(states), states)
      ensures Kept(f, reserved, old(Abstract()), Abstract()) && Backlog(n) <= old(Backlog(n)) && !Alone(f, steps, n)
    {
      IsReachable();
      EnvironmentKeeps(f, reserved, Abstract(), step);
      BacklogStep(states, n, After(Abstract(), step));
      Take(step);
      assert steps[|old(steps)|] == step && EnvironmentStep(f, {}, step);
    }

    method Take(step: Step)
      requires Valid() && Enabled(Abstract(), step)
      modifies this, store
      ensures Valid() && Abstract() == After(old(Abstract()), step)
      ensures steps == old(steps) + [step] && Onward(old(steps), steps, old(states), states) && states == old(states) + [Abstract()]
    {
      var before := Abstract();
      store.table, outbox := After(before, step).table, After(before, step).outbox;
      Record(before, step);
    }

    method Observe(records: seq<Record>) returns (ok: bool)
      requires Valid()
      modifies this, store
      ensures Valid()
      ensures ok <==> old(Enabled(Abstract(), UsageMachine.Observe(records)))
      ensures Abstract() == if ok then After(old(Abstract()), UsageMachine.Observe(records)) else old(Abstract())
    {
      var before := Abstract();
      ok := store.ObserveTraffic(records);
      if ok {
        Record(before, UsageMachine.Observe(records));
      }
    }

    // -------------------------------------------------------------- the repair of the outbox

    /** Inserts the row of a batch unless it is there. */
    method Enqueue(f: Flush, request: Id, payload: Payload, ghost n: nat)
      requires Valid() && n <= |steps| && Hand(f, request) in rest.listed && payload == rest.listed[Hand(f, request)]
      modifies this
      ensures Valid() && Abstract() == After(old(Abstract()), UsageMachine.Enqueue(f, request))
      ensures steps == old(steps) + [UsageMachine.Enqueue(f, request)] && Backlog(n) <= old(Backlog(n))
    {
      var before := Abstract();
      BacklogStep(states, n, After(before, UsageMachine.Enqueue(f, request)));
      if request !in outbox {
        var now: int := *;
        outbox, available := outbox[request := Message(Pending, Some(payload))], available[request := now];
      }
      Record(before, UsageMachine.Enqueue(f, request));
    }

    method EnqueueNext(f: Flush, reserved: set<Id>, request: Id, payload: Payload, ghost n: nat)
      requires Valid() && n <= |steps| && Hand(f, request) in rest.listed && payload == rest.listed[Hand(f, request)]
      modifies this, store
      ensures Valid() && old(steps) <= steps && Backlog(n) <= old(Backlog(n))
      ensures Kept(f, reserved, old(Abstract()), Abstract()) && Covered(Abstract(), request)
      ensures Alone(f, steps, n) ==> store.table == old(store.table) && old(outbox.Keys) + {request} <= outbox.Keys
    {
      Interfere(f, reserved, n);
      ghost var before, steps0 := Abstract(), steps;
      StillMine(old(rest.listed), rest.listed, f, request);
      EnqueueKeeps(f, reserved, before, request);
      Enqueue(f, request, payload, n);
      KeptTwice(f, reserved, old(Abstract()), before, Abstract());
      if Alone(f, steps, n) { AloneBefore(f, steps0, steps, n); }
    }

    /** First half of `EnsureOutbox`: every request that is already frozen gets its row back; a `sound` database refuses nothing. */
    method EnqueuePrepared(f: Flush, reserved: set<Id>, sound: bool, ghost n: nat) returns (ok: bool)
      requires Valid() && n <= |steps|
      modifies this, store
      ensures Valid() && old(steps) <= steps && Backlog(n) <= old(Backlog(n)) && rest.issued.Keys * reserved <= old(rest.issued.Keys)
      ensures sound ==> ok
      ensures ok ==> AllCovered(Abstract(), old(Requests(store.table)))
      ensures ok && Alone(f, steps, n) ==> Requests(store.table) <= outbox.Keys
    {
      var list := List(f, n);
      ok := EnqueueAll(f, reserved, list, sound, n);
    }

    method EnqueueAll(f: Flush, reserved: set<Id>, list: map<Id, Payload>, sound: bool, ghost n: nat) returns (ok: bool)
      requires Valid() && n <= |steps| && forall r :: r in list ==> Hand(f, r) in rest.listed && rest.listed[Hand(f, r)] == list[r]
      modifies this, store
      ensures Valid() && old(steps) <= steps && Backlog(n) <= old(Backlog(n)) && Kept(f, reserved, old(Abstract()), Abstract())
      ensures sound ==> ok
      ensures ok ==> AllCovered(Abstract(), list.Keys)
      ensures ok && Alone(f, steps, n) ==> store.table == old(store.table) && list.Keys <= outbox.Keys
    {
      var left := list.Keys;
      ghost var done: set<Id> := {};
      while left != {}
        invariant Valid() && old(steps) <= steps && Backlog(n) <= old(Backlog(n)) && left <= list.Keys <= done + left
        invariant Kept(f, reserved, old(Abstract()), Abstract()) && AllCovered(Abstract(), done)
        invariant Alone(f, steps, n) ==> store.table == old(store.table) && done <= outbox.Keys
        decreases left
      {
        var refused: bool := *;
        if refused && !sound {
          return false;
        }
        var request :| request in left;
        EnqueueOneOf(f, reserved, list, request, done, n, old(Abstract()), old(store.table));
        left, done := left - {request}, done + {request};
      }
      return true;
    }

    method EnqueueOneOf(f: Flush, reserved: set<Id>, list: map<Id, Payload>, request: Id, ghost done: set<Id>, ghost n: nat,
                        ghost start: State, ghost t: Table)
      requires Valid() && n <= |steps| && request in list && Hand(f, request) in start.listed && start.listed[Hand(f, request)] == list[request]
      requires Kept(f, reserved, start, Abstract()) && AllCovered(Abstract(), done)
      requires Alone(f, steps, n) ==> store.table == t && done <= outbox.Keys
      modifies this, store
      ensures Valid() && old(steps) <= steps && Backlog(n) <= old(Backlog(n))
      ensures Kept(f, reserved, start, Abstract()) && AllCovered(Abstract(), done + {request})
      ensures Alone(f, steps, n) ==> store.table == t && done + {request} <= outbox.Keys
    {
      StillMine(start.listed, rest.listed, f, request);
      EnqueueNext(f, reserved, request, list[request], n);
      KeptTwice(f, reserved, start, old(Abstract()), Abstract());
      OneMoreCovered(old(Abstract()), Abstract(), done, request);
      if Alone(f, steps, n) { AloneBefore(f, old(steps), steps, n); }
    }

    /** A flush begins: it forgets what it held and reads which requests are frozen. */
    method List(f: Flush, ghost n: nat) returns (list: map<Id, Payload>)
      requires Valid() && n <= |steps|
      modifies this
      ensures Valid() && steps == old(steps) + [ListPrepared(f)] && Backlog(n) <= old(Backlog(n)) && rest.issued == old(rest.issued)
      ensures list.Keys == Requests(store.table)
      ensures forall r :: r in list ==> Hand(f, r) in rest.listed && rest.listed[Hand(f, r)] == list[r]
    {
      var before := Abstract();
      assert After(before, ListPrepared(f)) == Begin(before, f);
      BacklogStep(states, n, Begin(before, f));
      list := map r | r in Requests(store.table) :: FrozenPayload(store.table, r);
      ListedNow(before, f);
      Record(before, ListPrepared(f));
    }

    /** Freezes one more request; no connections means nothing was left to freeze. */
    method Prepare(f: Flush, request: Id, ghost n: nat) returns (ids: seq<Id>)
      requires Valid() && n <= |steps| && request != "" && request !in rest.issued
      modifies this, store
      ensures Valid() && old(steps) <= steps && outbox == old(outbox) && rest.settled == old(rest.settled) && rest.late == old(rest.late)
      ensures rest.issued.Keys <= old(rest.issued.Keys) + {request} && Requests(store.table) <= old(Requests(store.table)) + {request}
      ensures ids == [] ==> Abstract() == old(Abstract()) && steps == old(steps) && EligibleIds(store.table) == {}
      ensures ids != [] ==> Backlog(n) < old(Backlog(n))
      ensures ids != [] ==> Hand(f, request) in rest.listed && rest.listed[Hand(f, request)] == FrozenPayload(store.table, request)
    {
      var before := Abstract();
      var batch := store.PrepareUsageRequest(request, USAGE_RECORDS_PER_MESSAGE);
      ids := IdsOf(batch.value);
      if ids == [] {
        NothingToFreeze(before.table, request);
        assert (set id | id in ids) == {};
        assert Abstract() == before;
      } else {
        Prepared(f, request, ids, before, n);
      }
    }

    method Prepared(f: Flush, request: Id, ids: seq<Id>, before: State, ghost n: nat)
      requires Run(states, steps) && Init(states[0]) && before == states[|steps|] && n <= |steps|
      requires Enabled(before, UsageMachine.Prepare(f, request, ids)) && before == rest.(table := before.table, outbox := outbox)
      requires store.table == Freeze(before.table, request, set id | id in ids)
      modifies this
      ensures Valid() && old(steps) <= steps && outbox == old(outbox) && rest.settled == before.settled && rest.late == before.late
      ensures rest.issued.Keys <= before.issued.Keys + {request} && Requests(store.table) <= Requests(before.table) + {request}
      ensures Backlog(n) < |EligibleIds(before.table)| - Arrivals(old(states), n)
      ensures Hand(f, request) in rest.listed && rest.listed[Hand(f, request)] == FrozenPayload(store.table, request)
    {
      PreparedRequests(before, f, request, ids);
      BacklogStep(states, n, Issue(before, f, request, store.table));
      Record(before, UsageMachine.Prepare(f, request, ids));
    }

    method PrepareOne(f: Flush, reserved: set<Id>, request: Id, ghost n: nat) returns (more: bool)
      requires Valid() && n <= |steps| && request in reserved && request != "" && request !in rest.issued
      requires Alone(f, steps, n) ==> Requests(store.table) <= outbox.Keys
      modifies this, store
      ensures Valid() && old(steps) <= steps && rest.issued.Keys * reserved <= old(rest.issued.Keys) + {request}
      ensures CoversMore(old(Abstract()), Abstract())
      ensures if more then Backlog(n) < old(Backlog(n)) else EligibleIds(store.table) == {}
      ensures more ==> Hand(f, request) in rest.listed && rest.listed[Hand(f, request)] == FrozenPayload(store.table, request)
      ensures Alone(f, steps, n) ==> Requests(store.table) <= outbox.Keys + (if more then {request} else {})
    {
      Interfere(f, reserved, n);
      NotIssued(request, reserved, old(rest.issued), rest.issued);
      ghost var before, steps1 := Abstract(), steps;
      var ids := Prepare(f, request, n);
      CoversTwice(old(Abstract()), before, Abstract());
      if Alone(f, steps, n) { AloneBefore(f, steps1, steps, n); }
      return ids != [];
    }

    /** Freezes one more request and inserts its row, with the others at work in between. */
    method PrepareNext(f: Flush, reserved: set<Id>, request: Id, sound: bool, ghost n: nat) returns (more: bool, ok: bool)
      requires Valid() && n <= |steps| && request in reserved && request != "" && request !in rest.issued
      requires Alone(f, steps, n) ==> Requests(store.table) <= outbox.Keys
      modifies this, store
      ensures Valid() && old(steps) <= steps && rest.issued.Keys * reserved <= old(rest.issued.Keys) + {request}
      ensures CoversMore(old(Abstract()), Abstract())
      ensures sound ==> ok
      ensures ok && more ==> Backlog(n) < old(Backlog(n)) && Covered(Abstract(), request)
      ensures ok && !more ==> EligibleIds(store.table) == {}
      ensures ok && Alone(f, steps, n) ==> Requests(store.table) <= outbox.Keys
    {
      more := PrepareOne(f, reserved, request, n);
      if !more {
        return false, true;
      }
      ok := *;
      ok := ok || sound;
      if ok {
        ghost var before, steps1 := Abstract(), steps;
        EnqueueNext(f, reserved, request, FrozenPayload(store.table, request), n);
        CoversTwice(old(Abstract()), before, Abstract());
        if Alone(f, steps, n) { AloneBefore(f, steps1, steps, n); }
      }
    }

    /**
     * `EnsureOutbox`: afterwards every request that was frozen before, and every one it has frozen itself, has its
     * row unless it is settled or failed late; and no unfrozen connection owes anything. Every round freezes at
     * least one connection, so the loop ends unless a statement is refused or connections keep coming to owe
     * something; `supply` stands for the fresh identifiers it draws. Left alone, it gives every frozen request a row.
     */
    method EnsureOutbox(f: Flush, supply: seq<Id>, sound: bool) returns (ok: bool, refused: bool)
      requires Valid() && Unused(supply, rest.issued)
      modifies this, store
      ensures Valid() && old(steps) <= steps
      ensures sound ==> !refused
      ensures ok ==> AllCovered(Abstract(), old(Requests(store.table))) && NothingOwed(store.table)
      ensures ok || refused || |supply| <= |old(EligibleIds(store.table))| + Arrivals(states, |old(steps)|)
      ensures ok && Alone(f, steps, |old(steps)|) ==> Requests(store.table) <= outbox.Keys
    {
      ghost var n := |steps|;
      var reserved := set r | r in supply;
      assert Arrivals(states, n) == 0;
      ok := EnqueuePrepared(f, reserved, sound, n);
      if !ok {
        return false, true;
      }
      for i := 0 to |supply|
        invariant Valid() && old(steps) <= steps && i + Backlog(n) <= |old(EligibleIds(store.table))|
        invariant AllCovered(Abstract(), old(Requests(store.table)))
        invariant forall k :: i <= k < |supply| ==> supply[k] !in rest.issued
        invariant Alone(f, steps, n) ==> Requests(store.table) <= outbox.Keys
      {
        ghost var issued := rest.issued.Keys;
        var more, done := PrepareNext(f, reserved, supply[i], sound, n);
        if !done {
          return false, true;
        }
        if !more {
          IsReachable();
          AllIsFrozen(Abstract());
          return true, false;
        }
        StillUnused(supply, i, issued, rest.issued.Keys);
      }
      return false, false;
    }

    // -------------------------------------------------------------- delivery

    /** The rows that are due at a time, the first hundred of them by availability and identifier, as the queue selects them. */
    method DueRows(now: int) returns (batch: seq<Id>)
      ensures Rows.FirstLeasable(AsRows(outbox, available), NODE, now, USAGE_RECORDS_PER_MESSAGE, KeysOf(batch))
      ensures Distinct(batch) && AllDue(outbox, available, now, batch)
    {
      var table := new Rows.MessageTable.Of(AsRows(outbox, available));
      var keys := table.SelectLeasable(NODE, now, USAGE_RECORDS_PER_MESSAGE);
      batch := seq(|keys|, i requires 0 <= i < |keys| => keys[i].id);
      assert KeysOf(batch) == keys;
      forall i, j | 0 <= i < j < |batch| ensures batch[i] != batch[j] {
        assert Rows.Sooner(AsRows(outbox, available), keys[i], keys[j]);
        Irreflexive(batch[i]);
      }
      forall i | 0 <= i < |batch| ensures Due(outbox, available, now, batch[i]) {
        assert Rows.Candidate(AsRows(outbox, available), NODE, now, keys[i]);
      }
      forall r | Due(outbox, available, now, r) && r !in batch ensures |batch| == 100 {
        assert Rows.Candidate(AsRows(outbox, available), NODE, now, Rows.Key(NODE, r));
      }
    }

    /** `LeasePending`: one transaction takes them in hand for a minute. */
    method LeasePending(f: Flush, now: int) returns (batch: seq<Id>)
      requires Valid()
      modifies this
      ensures Valid() && rest.settled == old(rest.settled) && Distinct(batch) && AllHeld(rest.held, f, batch, 0)
      ensures Rows.FirstLeasable(old(AsRows(outbox, available)), NODE, now, USAGE_RECORDS_PER_MESSAGE, KeysOf(batch))
      ensures AllDue(old(outbox), old(available), now, batch) && PutOff(old(available), available, batch, now + 60_000)
      ensures outbox == LeasedRows(old(outbox), batch) && Leases(f, old(steps), steps, batch) && old(states) <= states
    {
      batch := DueRows(now);
      for i := 0 to |batch|
        invariant Valid() && rest.settled == old(rest.settled) && AllHeld(rest.held, f, batch[..i], 0)
        invariant PutOff(old(available), available, batch[..i], now + 60_000)
        invariant outbox == LeasedRows(old(outbox), batch[..i]) && Leases(f, old(steps), steps, batch[..i]) && old(states) <= states
      {
        LeaseNext(old(outbox), batch, i);
        LeaseOneOf(f, batch, i, now, old(available), old(steps));
      }
      assert batch[..|batch|] == batch;
    }

    method LeaseOneOf(f: Flush, batch: seq<Id>, i: nat, now: int, ghost available0: map<Id, int>, ghost steps0: seq<Step>)
      requires Valid() && i < |batch| && batch[i] in outbox && outbox[batch[i]].status.Pending? && AllHeld(rest.held, f, batch[..i], 0)
      requires PutOff(available0, available, batch[..i], now + 60_000) && Leases(f, steps0, steps, batch[..i])
      modifies this
      ensures Valid() && rest.settled == old(rest.settled) && AllHeld(rest.held, f, batch[..i + 1], 0) && old(states) <= states
      ensures PutOff(available0, available, batch[..i + 1], now + 60_000) && Leases(f, steps0, steps, batch[..i + 1])
      ensures outbox == old(outbox)[batch[i] := old(outbox)[batch[i]].(status := InFlight)]
    {
      LeaseMessage(f, batch[i], now);
      OneMoreLeased(f, steps0, old(steps), steps, batch, i);
      OneMoreHeld(old(rest.held), rest.held, f, batch[..i], batch[i]);
      assert batch[..i + 1] == batch[..i] + [batch[i]];
    }

    method LeaseMessage(f: Flush, r: Id, now: int)
      requires Valid() && r in outbox && outbox[r].status.Pending?
      modifies this
      ensures Valid() && Holds(rest.held, f, r) && HoldsOthers(old(rest.held), rest.held, f, r)
      ensures rest.settled == old(rest.settled) && outbox == old(outbox)[r := old(outbox)[r].(status := InFlight)]
      ensures steps == old(steps) + [Lease(f, r)] && old(states) <= states && available == old(available)[r := now + 60_000]
    {
      var before := Abstract();
      outbox, available := outbox[r := outbox[r].(status := InFlight)], available[r := now + LEASE_MS];
      Record(before, Lease(f, r));
    }

    /** Sends a batch that is in hand and waits; meanwhile the others go on, and the answer may not come or be `lost`. */
    method SendUsageBatch(f: Flush, r: Id, lost: bool) returns (ack: Option<seq<Record>>)
      requires Valid() && HoldsPayload(rest.held, f, r)
      modifies this, store
      ensures Valid() && Kept(f, {}, old(Abstract()), Abstract()) && old(steps) + [Send(f, r)] <= steps && old(states) <= states
      ensures ack.None? <==> lost || forall a :: a in rest.acks ==> a.request != r
      ensures ack.Some? ==> NamesOnce(ack.value) && Delivery(r, MapOf(ack.value)) in rest.acks
    {
      var before := Abstract();
      SendKeeps(f, before, r);
      Record(before, Send(f, r));
      ghost var sent := Abstract();
      Interfere(f, {}, |steps|);
      KeptTwice(f, {}, before, sent, Abstract());
      var arrived := set a | a in rest.acks && a.request == r;
      if arrived != {} && !lost {
        var a :| a in arrived;
        IsReachable();
        AnswersAreNamed(Abstract(), a);
        var records := RecordsOf(a.payload);
        return Some(records);
      }
      assert forall a :: a in rest.acks && a.request == r ==> a in arrived;
      return None;
    }

    /** `Ack`: unless a statement is refused, an answer of the server is accepted; the row may stay unmarked. */
    method Ack(f: Flush, r: Id, records: seq<Record>, sound: bool) returns (ok: bool)
      requires Valid() && HoldsPayload(rest.held, f, r) && NamesOnce(records) && Delivery(r, MapOf(records)) in rest.acks
      modifies this, store
      ensures Onward(old(steps), steps, old(states), states)
      ensures Valid() && HoldsOthers(old(rest.held), rest.held, f, r) && old(rest.settled) <= rest.settled
      ensures sound ==> ok && (r in outbox ==> outbox[r].status.Acked?)
      ensures ok ==> r in rest.settled && Frozen(store.table, r) == {}
      ensures !ok ==> store.table == old(store.table) && outbox == old(outbox) && rest.settled == old(rest.settled)
    {
      var refused: bool := *;
      if refused && !sound {
        PassOver(f, r);
        return false;
      }
      Acknowledge(f, r, records);
      ghost var accepted, steps1, states1 := Abstract(), steps, states;
      Interfere(f, {}, |steps|);
      OnwardTwice(old(steps), steps1, steps, old(states), states1, states);
      ghost var steps2, states2 := steps, states;
      KeptHolds(f, accepted, Abstract(), r);
      refused := *;
      if refused && !sound {
        PassOver(f, r);
      } else {
        MarkAcked(f, r);
      }
      OnwardTwice(old(steps), steps2, steps, old(states), states2, states);
      SettledIsReleased(r);
      return true;
    }

    method Acknowledge(f: Flush, r: Id, records: seq<Record>)
      requires Valid() && HoldsPayload(rest.held, f, r) && NamesOnce(records) && Delivery(r, MapOf(records)) in rest.acks
      modifies this, store
      ensures Onward(old(steps), steps, old(states), states)
      ensures Valid() && HoldsOthers(old(rest.held), rest.held, f, r) && rest.settled == old(rest.settled) + {r}
      ensures Hand(f, r) in rest.held && rest.held[Hand(f, r)].Confirmed?
    {
      var before, ack := Abstract(), Delivery(r, MapOf(records));
      IsReachable();
      AnswersAreAccepted(before, f, ack);
      var accepted := store.AcknowledgeUsage(r, records);
      assert accepted;
      Confirmed(f, ack, before);
    }

    method Confirmed(f: Flush, ack: Delivery, before: State)
      requires Run(states, steps) && Init(states[0]) && before == states[|steps|] && before == rest.(table := before.table, outbox := outbox)
      requires Enabled(before, UsageMachine.Acknowledge(f, ack))
      requires After(before, UsageMachine.Acknowledge(f, ack)) == Confirm(before, f, ack.request, store.table)
      modifies this
      ensures Onward(old(steps), steps, old(states), states)
      ensures Valid() && HoldsOthers(before.held, rest.held, f, ack.request) && rest.settled == before.settled + {ack.request}
      ensures Hand(f, ack.request) in rest.held && rest.held[Hand(f, ack.request)].Confirmed?
    {
      Record(before, UsageMachine.Acknowledge(f, ack));
    }

    method MarkAcked(f: Flush, r: Id)
      requires Valid() && Hand(f, r) in rest.held && rest.held[Hand(f, r)].Confirmed?
      modifies this
      ensures Onward(old(steps), steps, old(states), states)
      ensures Valid() && HoldsOthers(old(rest.held), rest.held, f, r) && rest.settled == old(rest.settled)
      ensures outbox == if r in old(outbox) then old(outbox)[r := old(outbox)[r].(status := Acked)] else old(outbox)
    {
      var before := Abstract();
      if r in outbox {
        outbox := outbox[r := outbox[r].(status := Acked)];
      }
      Record(before, UsageMachine.MarkAcked(f, r));
    }

    /** A statement about the message was refused, and the flush goes on to the next. */
    method PassOver(f: Flush, r: Id)
      requires Valid() && Hand(f, r) in rest.held
      modifies this`rest, this`states, this`steps
      ensures Onward(old(steps), steps, old(states), states)
      ensures Valid() && HoldsOthers(old(rest.held), rest.held, f, r) && rest.settled == old(rest.settled)
    {
      Record(Abstract(), Skip(f, r));
    }

    /**
     * `Fail`: whatever its status, the row waits until a minute after `at`, unless that time has passed already when
     * it is written; then it is failed. A row that is gone stays gone.
     */
    method Fail(f: Flush, r: Id, at: int, elapsed: nat)
      requires Valid() && Holds(rest.held, f, r)
      modifies this
      ensures Valid() && rest.settled == old(rest.settled)
      ensures outbox == if r in old(outbox) then old(outbox)[r := old(outbox)[r].(status := if elapsed < 60_000 then Pending else Failed)] else old(outbox)
      ensures r in outbox ==> r in available && available[r] == at + 60_000
      ensures steps == old(steps) + [UsageMachine.Fail(f, r, elapsed)] && old(states) <= states && rest.acks == old(rest.acks)
      ensures old(rest.held)[Hand(f, r)].payload.None? ==> HoldsOthers(old(rest.held), rest.held, f, r)
    {
      var before := Abstract();
      if r in outbox {
        outbox, available := outbox[r := outbox[r].(status := AfterFailure(elapsed))], available[r := at + RETRY_MS];
      }
      Record(before, UsageMachine.Fail(f, r, elapsed));
    }

    lemma SettledIsReleased(r: Id)
      requires Valid()
      ensures r in rest.settled ==> Frozen(store.table, r) == {}
    {
      IsReachable();
      assert forall id :: id in store.table ==> RowOk(rest.issued, rest.settled, id, store.table[id]);
    }

    /** One message of the loop: a delivered one is acknowledged, an unreadable one is passed over, a failed one ends the loop. */
    method Deliver(f: Flush, r: Id, sound: bool, lost: bool) returns (settled: bool, stop: bool)
      requires Valid() && Holds(rest.held, f, r)
      modifies this, store
      ensures Valid() && old(rest.settled) <= rest.settled && (settled ==> r in rest.settled)
      ensures Onward(old(steps), steps, old(states), states)
      ensures stop ==> lost || forall a :: a in rest.acks ==> a.request != r
      ensures sound && !settled ==> FailedLast(steps, f, r)
      ensures stop ==> !settled
      ensures sound && !stop ==> settled == old(rest.held[Hand(f, r)].payload.Some?)
      ensures !stop ==> HoldsOthers(old(rest.held), rest.held, f, r)
    {
      var at: int, elapsed: nat, refused: bool := *, *, *;
      if rest.held[Hand(f, r)].payload.None? {
        if refused && !sound { PassOver(f, r); } else { Fail(f, r, at, elapsed); }
        return false, false;
      }
      var ack := SendUsageBatch(f, r, lost);
      KeptHolds(f, old(Abstract()), Abstract(), r);
      if ack.None? {
        if !refused || sound { Fail(f, r, at, elapsed); }
        return false, true;
      }
      ghost var held := rest.held;
      settled := Ack(f, r, ack.value, sound);
      HoldsTwice(old(rest.held), held, rest.held, f, r);
      return settled, false;
    }

    /**
     * `flushUsage`: what was leased is delivered message by message, until an answer fails to come. When it gets to
     * the end and every message was readable and its acknowledgement stored, every batch it sent is settled. With a
     * `sound` database the rows that are due at `now` are leased, unless new usage has used up the identifiers, and
     * only the failure of a message that has got no answer keeps it from the end.
     */
    method FlushUsage(f: Flush, supply: seq<Id>, now: int, sound: bool) returns (done: bool, batch: seq<Id>, handled: nat, ghost leased: Option<Leasing>)
      requires Valid() && Unused(supply, rest.issued)
      modifies this, store
      ensures Valid() && handled <= |batch|
      ensures done ==> handled == |batch| && forall i :: 0 <= i < |batch| ==> batch[i] in rest.settled && Frozen(store.table, batch[i]) == {}
      ensures sound && leased.None? ==> |supply| <= |old(EligibleIds(store.table))| + Arrivals(states, |old(steps)|)
      ensures leased.Some? ==>
                && |old(steps)| <= leased.value.at && LeasedAt(f, states, steps, leased.value, now, batch)
                && (sound && handled < |batch| ==> FailedLast(steps, f, batch[handled]))
    {
      batch, handled, leased := [], 0, None;
      var ok, _ := EnsureOutbox(f, supply, sound);
      var refused: bool := *;
      if !ok || (refused && !sound) {
        return false, batch, handled, leased;
      }
      Interfere(f, {}, |steps|);
      ghost var l := Leasing(|steps|, AsRows(outbox, available));
      ghost var steps1, states1, due := steps, states, available;
      batch := LeasePending(f, now);
      ghost var steps2 := steps;
      leased := Some(l);
      done, handled := DeliverAll(f, batch, sound);
      LeasedThere(f, states1, states, steps1, steps2, steps, l, due, now, batch);
    }

    method DeliverAll(f: Flush, batch: seq<Id>, sound: bool) returns (done: bool, handled: nat)
      requires Valid() && Distinct(batch) && AllHeld(rest.held, f, batch, 0)
      modifies this, store
      ensures Valid() && Onward(old(steps), steps, old(states), states) && handled <= |batch|
      ensures sound && handled < |batch| ==> FailedLast(steps, f, batch[handled])
      ensures done ==> handled == |batch| && forall i :: 0 <= i < |batch| ==> batch[i] in rest.settled && Frozen(store.table, batch[i]) == {}
    {
      done := true;
      for i := 0 to |batch|
        invariant Valid() && Onward(old(steps), steps, old(states), states) && AllHeld(rest.held, f, batch, i) && (done ==> AllIn(batch[..i], rest.settled))
      {
        var accepted, stop := DeliverNext(f, batch, i, sound);
        if stop {
          return false, i;
        }
        done := done && accepted;
        assert batch[..i + 1] == batch[..i] + [batch[i]];
      }
      assert batch[..|batch|] == batch;
      handled := |batch|;
      forall i | 0 <= i < |batch| ensures done ==> Frozen(store.table, batch[i]) == {} { SettledIsReleased(batch[i]); }
    }

    method DeliverNext(f: Flush, batch: seq<Id>, i: nat, sound: bool) returns (settled: bool, stop: bool)
      requires Valid() && i < |batch| && Distinct(batch) && AllHeld(rest.held, f, batch, i)
      modifies this, store
      ensures Valid() && old(rest.settled) <= rest.settled && (settled ==> batch[i] in rest.settled)
      ensures Onward(old(steps), steps, old(states), states) && (sound && stop ==> FailedLast(steps, f, batch[i]))
      ensures !stop ==> AllHeld(rest.held, f, batch, i + 1)
    {
      Interfere(f, {}, |steps|);
      StillAllHeld(old(rest.held), rest.held, f, batch, i);
      ghost var held := rest.held;
      var lost: bool := *;
      settled, stop := Deliver(f, batch[i], sound, lost);
      if !stop { NextHeld(held, rest.held, f, batch, i); }
    }
  }

  // ---------------------------------------------------------------- the server's side of a delivery

  lemma {:induction false} AcceptableFits(records: seq<Record>)
    requires forall i :: 0 <= i < |records| ==> records[i].bytes.tx <= MAX_INT64 - records[i].bytes.rx
    ensures Fits(MapOf(records))
  {
    if records != [] {
      AcceptableFits(records[..|records| - 1]);
    }
  }

  ghost function BooksOf(s: State): Books {
    Books(s.totals, s.credited, s.inbox)
  }

  /** Handling a delivered batch is a run of the machine; an accepting answer is an acknowledgement of that run. */
  lemma HandlingIsRun(s: State, request: Id, records: seq<Record>, readable: bool, r: Reply, b': Books)
    requires Delivery(request, MapOf(records)) in s.sent
    requires Handles(s.owned, BooksOf(s), request, records, readable, r, b')
    ensures exists s' :: Leads(s, s') && BooksOf(s') == b' && (r.Accepted? ==> Delivery(request, r.totals) in s'.acks)
  {
    LeadsNowhere(s);
    if request != "" {
      if readable && request in s.inbox {
        LeadsFurther(s, s, Replay(request));
      } else {
        var s1 := CreditingIsRun(s, request, records);
        if r.Accepted? {
          LeadsFurther(s, s1, Answer(request));
          assert BooksOf(After(s1, Answer(request))) == b';
        }
      }
    }
  }

  lemma CreditingIsRun(s: State, request: Id, records: seq<Record>) returns (s': State)
    requires Delivery(request, MapOf(records)) in s.sent
    ensures Leads(s, s') && BooksOf(s') == AfterCredit(s.owned, BooksOf(s), request, records)
  {
    LeadsNowhere(s);
    s' := s;
    if request !in s.credited && Acceptable(records) && MapOf(records).Keys <= s.owned {
      AcceptableFits(records);
      LeadsFurther(s, s, Apply(Delivery(request, MapOf(records))));
      s' := After(s, Apply(Delivery(request, MapOf(records))));
    }
  }
}
