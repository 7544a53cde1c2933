/**
 * The durable message queue: leases, retries, expiry and cleanup of one table of messages. Times are
 * milliseconds and every database statement or transaction is one step.
 */
module MessageQueue {
  import opened Ids
  import opened Wrappers

  datatype Status = Pending | InFlight | Applied | Acked | Failed | Expired | Superseded {
    predicate Live() { Pending? || InFlight? }
  }

  datatype Key = Key(actor: Id, id: Id)

  datatype Message = Message(typ: string, status: Status, available: int, expires: Option<int>, created: int,
                             payload: string, result: string, error: string) {
    predicate Unexpired(now: int) { expires.None? || expires.value > now }
  }

  type Table = map<Key, Message>

  const DEFAULT_LIMIT := 100

  // ---------------------------------------------------------------- leasing

  predicate Leasable(m: Message, now: int) {
    m.status.Pending? && m.available <= now && m.Unexpired(now)
  }

  /** `order by available_at_ms, id`. */
  predicate Sooner(t: Table, a: Key, b: Key)
    requires a in t && b in t
  {
    t[a].available < t[b].available || (t[a].available == t[b].available && Less(a.id, b.id))
  }

  predicate Candidate(t: Table, actor: Id, now: int, k: Key) {
    k in t && k.actor == actor && Leasable(t[k], now)
  }

  /** The first `limit` leasable messages of an actor, in order. */
  ghost predicate FirstLeasable(t: Table, actor: Id, now: int, limit: nat, keys: seq<Key>) {
    && |keys| <= limit
    && (forall i :: 0 <= i < |keys| ==> Candidate(t, actor, now, keys[i]))
    && (forall i, j :: 0 <= i < j < |keys| ==> Sooner(t, keys[i], keys[j]))
    && (forall k :: Candidate(t, actor, now, k) && k !in keys ==>
          |keys| == limit && forall i :: 0 <= i < |keys| ==> Sooner(t, keys[i], k))
  }

  // ---------------------------------------------------------------- cleanup

  datatype Policy = Policy(
    authAcked: int, authSuperseded: int, authFailed: int, runtimeAcked: int, runtimeFailed: int,
    onlineAcked: int, onlineFailed: int, trafficAcked: int, trafficFailed: int,
    defaultAcked: int, defaultFailed: int, defaultExpired: int, redactAfter: int)

  datatype Rule = Rule(status: Status, typ: string, ttl: int)

  function Rules(p: Policy): seq<Rule> {
    [
      Rule(Acked, "auth_refresh", p.authAcked),
      Rule(Applied, "auth_refresh", p.authAcked),
      Rule(Superseded, "auth_refresh", p.authSuperseded),
      Rule(Failed, "auth_refresh", p.authFailed),
      Rule(Expired, "auth_refresh", p.authFailed),
      Rule(Acked, "runtime_command", p.runtimeAcked),
      Rule(Applied, "runtime_command", p.runtimeAcked),
      Rule(Failed, "runtime_command", p.runtimeFailed),
      Rule(Expired, "runtime_command", p.runtimeFailed),
      Rule(Acked, "online_snapshot", p.onlineAcked),
      Rule(Failed, "online_snapshot", p.onlineFailed),
      Rule(Expired, "online_snapshot", p.onlineFailed),
      Rule(Acked, "traffic_batch", p.trafficAcked),
      Rule(Applied, "traffic_batch", p.trafficAcked),
      Rule(Failed, "traffic_batch", p.trafficFailed),
      Rule(Expired, "traffic_batch", p.trafficFailed),
      Rule(Acked, "", p.defaultAcked),
      Rule(Applied, "", p.defaultAcked),
      Rule(Failed, "", p.defaultFailed),
      Rule(Expired, "", p.defaultExpired)
    ]
  }

  predicate Matches(r: Rule, m: Message, now: int) {
    r.ttl > 0 && m.status == r.status && (r.typ == "" || m.typ == r.typ) && m.created < now - r.ttl
  }

  predicate Redactable(p: Policy, m: Message, now: int) {
    p.redactAfter > 0 && (m.status.Failed? || m.status.Expired? || m.status.Acked?) && m.created < now - p.redactAfter
  }

  function Redacted(m: Message): Message {
    m.(payload := "{}", result := "{}")
  }

  // ---------------------------------------------------------------- steps

  datatype Step =
    | Write(key: Key, message: Message, replace: bool)
    | Lease(keys: seq<Key>, now: int, until: int)
    | Requeue(actor: Id, now: int)
    | Expire(actor: Id, now: int)
    | MarkFailed(id: Id, error: string, retryAt: Option<int>, now: int)
    | MarkDone(id: Id, status: Status, result: string, error: string)
    | Delete(rule: Rule, now: int)
    | Redact(policy: Policy, now: int)

  predicate Enabled(t: Table, step: Step) {
    match step
    case Lease(keys, now, _) => forall i :: 0 <= i < |keys| ==> keys[i] in t && Leasable(t[keys[i]], now)
    case Delete(rule, _) => !rule.status.Live()
    case _ => true
  }

  /** On a conflict a replacing write keeps only the creation time. */
  function Overwritten(old_: Message, m: Message): Message {
    m.(created := old_.created)
  }

  function MarkedFailed(m: Message, error: string, retryAt: Option<int>, now: int): Message {
    m.(status := if retryAt.Some? && retryAt.value > now then Pending else Failed,
       available := if retryAt.Some? then retryAt.value else now,
       error := error)
  }

  /** What a step makes of a row, or nothing if it deletes it. */
  function OnRow(step: Step, k: Key, m: Message): Option<Message> {
    match step
    case Write(key, message, replace) => Some(if k == key && replace then Overwritten(m, message) else m)
    case Lease(keys, _, until) => Some(if k in keys then m.(status := InFlight, available := until) else m)
    case Requeue(actor, now) =>
      Some(if k.actor == actor && m.status.InFlight? && m.available <= now && m.Unexpired(now) then m.(status := Pending) else m)
    case Expire(actor, now) =>
      Some(if k.actor == actor && m.status.Live() && !m.Unexpired(now) then m.(status := Expired) else m)
    case MarkFailed(id, error, retryAt, now) => Some(if k.id == id then MarkedFailed(m, error, retryAt, now) else m)
    case MarkDone(id, status, result, error) =>
      Some(if k.id == id then m.(status := status, result := result, error := error) else m)
    case Delete(rule, now) => if Matches(rule, m, now) then None else Some(m)
    case Redact(policy, now) => Some(if Redactable(policy, m, now) then Redacted(m) else m)
  }

  function After(t: Table, step: Step): Table {
    var kept := map k | k in t && OnRow(step, k, t[k]).Some? :: OnRow(step, k, t[k]).value;
    if step.Write? && step.key !in t then kept[step.key := step.message] else kept
  }

  ghost predicate Run(tables: seq<Table>, steps: seq<Step>) {
    && |tables| == |steps| + 1
    && forall i :: 0 <= i < |steps| ==> Enabled(tables[i], steps[i]) && tables[i + 1] == After(tables[i], steps[i])
  }

  lemma RunExtends(tables: seq<Table>, steps: seq<Step>, step: Step)
    requires Run(tables, steps) && Enabled(tables[|steps|], step)
    ensures Run(tables + [After(tables[|steps|], step)], steps + [step])
  {
    var tables', steps' := tables + [After(tables[|steps|], step)], steps + [step];
    forall i | 0 <= i < |steps'| ensures Enabled(tables'[i], steps'[i]) && tables'[i + 1] == After(tables'[i], steps'[i]) {
      if i < |steps| { assert Enabled(tables[i], steps[i]) && tables[i + 1] == After(tables[i], steps[i]); }
    }
  }

  // ---------------------------------------------------------------- what runs keep

  /** As long as a message is there its creation time stays, so no rewriting of it puts off its cleanup. */
  lemma {:induction false} CreationTimeStays(tables: seq<Table>, steps: seq<Step>, k: Key, n: nat)
    requires Run(tables, steps) && n <= |steps| && forall i :: 0 <= i <= n ==> k in tables[i]
    ensures tables[n][k].created == tables[0][k].created
  {
    if n > 0 {
      CreationTimeStays(tables, steps, k, n - 1);
      assert tables[n] == After(tables[n - 1], steps[n - 1]);
    }
  }

  /** An explicit decision about the message: a mark by its identifier or a replacing write. */
  predicate Decides(step: Step, k: Key) {
    || ((step.MarkFailed? || step.MarkDone?) && step.id == k.id)
    || (step.Write? && step.replace && step.key == k)
  }

  predicate Timed(step: Step) {
    step.Lease? || step.Requeue? || step.Expire?
  }

  ghost predicate Undecided(steps: seq<Step>, k: Key) {
    forall i :: 0 <= i < |steps| ==> !Decides(steps[i], k)
  }

  /** The same message, waiting or being worked on. */
  predicate StillLive(m: Message, m': Message) {
    m' == m.(status := m'.status, available := m'.available) && m'.status.Live()
  }

  lemma LiveStep(t: Table, step: Step, k: Key)
    requires Enabled(t, step) && !Decides(step, k)
    requires k in t && t[k].status.Live() && t[k].expires.None?
    ensures k in After(t, step) && StillLive(t[k], After(t, step)[k])
  {
  }

  /** Without an expiry, only an explicit decision ends a live message: no cleanup, lease or requeue does. */
  lemma {:induction false} LiveUntilDecided(tables: seq<Table>, steps: seq<Step>, k: Key, n: nat)
    requires Run(tables, steps) && n <= |steps| && Undecided(steps, k)
    requires k in tables[0] && tables[0][k].status.Live() && tables[0][k].expires.None?
    ensures k in tables[n] && StillLive(tables[0][k], tables[n][k])
  {
    if n > 0 {
      LiveUntilDecided(tables, steps, k, n - 1);
      assert Enabled(tables[n - 1], steps[n - 1]) && !Decides(steps[n - 1], k);
      LiveStep(tables[n - 1], steps[n - 1], k);
    }
  }

  lemma WaitingStep(t: Table, step: Step, k: Key)
    requires Enabled(t, step) && !Decides(step, k) && k in t && t[k].status.Live()
    requires Timed(step) ==> step.now < t[k].available && t[k].Unexpired(step.now)
    ensures k in After(t, step) && After(t, step)[k] == t[k]
    ensures step.Lease? ==> k !in step.keys
  {
  }

  /**
   * A leased message is exactly as it was leased until its lease ends, and a message put off is exactly as
   * it was until its time comes, unless it expires or somebody decides about it; nobody leases it before.
   */
  lemma {:induction false} WaitsUntilDue(tables: seq<Table>, steps: seq<Step>, k: Key, n: nat)
    requires Run(tables, steps) && n <= |steps| && Undecided(steps, k)
    requires k in tables[0] && tables[0][k].status.Live()
    requires forall i :: 0 <= i < |steps| && Timed(steps[i]) ==>
               steps[i].now < tables[0][k].available && tables[0][k].Unexpired(steps[i].now)
    ensures k in tables[n] && tables[n][k] == tables[0][k]
    ensures forall i :: 0 <= i < n && steps[i].Lease? ==> k !in steps[i].keys
  {
    if n > 0 {
      WaitsUntilDue(tables, steps, k, n - 1);
      assert Enabled(tables[n - 1], steps[n - 1]) && !Decides(steps[n - 1], k);
      WaitingStep(tables[n - 1], steps[n - 1], k);
    }
  }

  predicate Writes(step: Step, k: Key) {
    step.Write? && step.key == k
  }

  lemma TerminalStep(t: Table, step: Step, k: Key, status: Status)
    requires Enabled(t, step) && !Decides(step, k) && !Writes(step, k) && !status.Live()
    requires k in t ==> t[k].status == status
    ensures k in After(t, step) ==> k in t && After(t, step)[k].status == status
  {
  }

  /** A finished message keeps its status until cleanup deletes it, and never comes back by itself. */
  lemma {:induction false} FinishedStaysFinished(tables: seq<Table>, steps: seq<Step>, k: Key, n: nat)
    requires Run(tables, steps) && n <= |steps| && Undecided(steps, k) && forall i :: 0 <= i < |steps| ==> !Writes(steps[i], k)
    requires k in tables[0] && !tables[0][k].status.Live()
    ensures k in tables[n] ==> tables[n][k].status == tables[0][k].status
  {
    if n > 0 {
      FinishedStaysFinished(tables, steps, k, n - 1);
      assert Enabled(tables[n - 1], steps[n - 1]) && !Decides(steps[n - 1], k) && !Writes(steps[n - 1], k);
      TerminalStep(tables[n - 1], steps[n - 1], k, tables[0][k].status);
    }
  }

  lemma RunSlice(tables: seq<Table>, steps: seq<Step>, i: nat, j: nat)
    requires Run(tables, steps) && i <= j <= |steps|
    ensures Run(tables[i..j + 1], steps[i..j])
  {
    var tables', steps' := tables[i..j + 1], steps[i..j];
    forall n | 0 <= n < |steps'| ensures Enabled(tables'[n], steps'[n]) && tables'[n + 1] == After(tables'[n], steps'[n]) {
      assert steps'[n] == steps[i + n];
    }
  }

  ghost predicate ClockAdvances(steps: seq<Step>) {
    forall a, b :: 0 <= a < b < |steps| && Timed(steps[a]) && Timed(steps[b]) ==> steps[a].now <= steps[b].now
  }

  /**
   * Two leases of one message in a run: the first has ended, the message has expired, or somebody
   * decided about it in between.
   */
  lemma NoDoubleLease(tables: seq<Table>, steps: seq<Step>, i: nat, j: nat, k: Key)
    requires Run(tables, steps) && ClockAdvances(steps) && i < j < |steps|
    requires steps[i].Lease? && k in steps[i].keys && steps[j].Lease? && k in steps[j].keys
    ensures steps[i].until <= steps[j].now || (exists d :: i < d < j && Decides(steps[d], k))
         || (k in tables[i] && !tables[i][k].Unexpired(steps[j].now))
  {
    assert Enabled(tables[i], steps[i]) && tables[i + 1] == After(tables[i], steps[i]);
    var m := tables[i + 1][k];
    assert m == tables[i][k].(status := InFlight, available := steps[i].until);
    if steps[j].now < m.available && m.Unexpired(steps[j].now) && forall d :: i < d < j ==> !Decides(steps[d], k) {
      var tables', steps' := tables[i + 1..j + 2], steps[i + 1..j + 1];
      RunSlice(tables, steps, i + 1, j + 1);
      forall n | 0 <= n < |steps'|
        ensures !Decides(steps'[n], k)
        ensures Timed(steps'[n]) ==> steps'[n].now < m.available && m.Unexpired(steps'[n].now)
      {
        assert steps'[n] == steps[i + 1 + n];
      }
      assert steps'[j - i - 1] == steps[j];
      WaitsUntilDue(tables', steps', k, |steps'|);
      assert false;
    }
  }

  /** Once the lease is over, a requeue gives the message back to the next lease. */
  lemma LeaseEnds(t: Table, k: Key, now: int)
    requires k in t && t[k].status.InFlight? && t[k].Unexpired(now)
    ensures Candidate(After(t, Requeue(k.actor, now)), k.actor, now, k) <==> t[k].available <= now
  {
  }

  lemma RulesAreTerminal(p: Policy, i: nat)
    requires i < |Rules(p)|
    ensures !Rules(p)[i].status.Live()
  {
  }

  /** Deleted by one of the rules, redacted, or kept. */
  predicate Deletable(p: Policy, m: Message, now: int) {
    exists r :: r in Rules(p) && Matches(r, m, now)
  }

  /** How long a finished message of a type is kept, by the policy for its type; zero is for ever. */
  function TypedTtl(p: Policy, status: Status, typ: string): int {
    if typ == "auth_refresh" then
      (match status case Acked => p.authAcked case Applied => p.authAcked case Superseded => p.authSuperseded
                    case Failed => p.authFailed case Expired => p.authFailed case _ => 0)
    else if typ == "runtime_command" then
      (match status case Acked => p.runtimeAcked case Applied => p.runtimeAcked case Failed => p.runtimeFailed case Expired => p.runtimeFailed case _ => 0)
    else if typ == "online_snapshot" then
      (match status case Acked => p.onlineAcked case Failed => p.onlineFailed case Expired => p.onlineFailed case _ => 0)
    else if typ == "traffic_batch" then
      (match status case Acked => p.trafficAcked case Applied => p.trafficAcked case Failed => p.trafficFailed case Expired => p.trafficFailed case _ => 0)
    else 0
  }

  /** And by the policy for all types. */
  function DefaultTtl(p: Policy, status: Status): int {
    match status
    case Acked => p.defaultAcked
    case Applied => p.defaultAcked
    case Failed => p.defaultFailed
    case Expired => p.defaultExpired
    case _ => 0
  }

  predicate OlderThan(m: Message, ttl: int, now: int) {
    0 < ttl && ttl < now - m.created
  }

  /** Every rule is the policy for its status, of its type or of all. */
  lemma RuleIsPolicy(p: Policy, i: nat)
    requires i < |Rules(p)|
    ensures var r := Rules(p)[i]; r.ttl == if r.typ == "" then DefaultTtl(p, r.status) else TypedTtl(p, r.status, r.typ)
  {
  }

  lemma RuleAt(p: Policy, i: nat, r: Rule)
    requires i < |Rules(p)| && Rules(p)[i] == r
    ensures r in Rules(p)
  {
  }

  lemma TypedRule(p: Policy, status: Status, typ: string)
    requires TypedTtl(p, status, typ) > 0
    ensures typ != "" && Rule(status, typ, TypedTtl(p, status, typ)) in Rules(p)
  {
    var rule := Rule(status, typ, TypedTtl(p, status, typ));
    if typ == "auth_refresh" {
      if status.Acked? { RuleAt(p, 0, rule); }
      if status.Applied? { RuleAt(p, 1, rule); }
      if status.Superseded? { RuleAt(p, 2, rule); }
      if status.Failed? { RuleAt(p, 3, rule); }
      if status.Expired? { RuleAt(p, 4, rule); }
    } else if typ == "runtime_command" {
      if status.Acked? { RuleAt(p, 5, rule); }
      if status.Applied? { RuleAt(p, 6, rule); }
      if status.Failed? { RuleAt(p, 7, rule); }
      if status.Expired? { RuleAt(p, 8, rule); }
    } else if typ == "online_snapshot" {
      if status.Acked? { RuleAt(p, 9, rule); }
      if status.Failed? { RuleAt(p, 10, rule); }
      if status.Expired? { RuleAt(p, 11, rule); }
    } else {
      if status.Acked? { RuleAt(p, 12, rule); }
      if status.Applied? { RuleAt(p, 13, rule); }
      if status.Failed? { RuleAt(p, 14, rule); }
      if status.Expired? { RuleAt(p, 15, rule); }
    }
  }

  lemma DefaultRule(p: Policy, status: Status)
    requires DefaultTtl(p, status) > 0
    ensures Rule(status, "", DefaultTtl(p, status)) in Rules(p)
  {
    var rules := Rules(p);
    assert [rules[16], rules[17], rules[18], rules[19]] == rules[16..];
  }

  /** The rules say: a message is deleted exactly if it is older than the policy for its status allows, for its type or for all. */
  lemma DeletableIff(p: Policy, m: Message, now: int)
    ensures Deletable(p, m, now) <==> OlderThan(m, TypedTtl(p, m.status, m.typ), now) || OlderThan(m, DefaultTtl(p, m.status), now)
  {
    forall r | r in Rules(p) && Matches(r, m, now) ensures OlderThan(m, TypedTtl(p, m.status, m.typ), now) || OlderThan(m, DefaultTtl(p, m.status), now) {
      var i :| 0 <= i < |Rules(p)| && Rules(p)[i] == r;
      RuleIsPolicy(p, i);
    }
    if OlderThan(m, TypedTtl(p, m.status, m.typ), now) {
      TypedRule(p, m.status, m.typ);
      assert Matches(Rule(m.status, m.typ, TypedTtl(p, m.status, m.typ)), m, now);
    } else if OlderThan(m, DefaultTtl(p, m.status), now) {
      DefaultRule(p, m.status);
      assert Matches(Rule(m.status, "", DefaultTtl(p, m.status)), m, now);
    }
  }

  function Cleaned(t: Table, p: Policy, now: int): Table {
    map k | k in t && !Deletable(p, t[k], now) :: if Redactable(p, t[k], now) then Redacted(t[k]) else t[k]
  }

  /**
   * What a complete cleanup makes of a row: it is gone exactly if it is too old for its status and type; otherwise its
   * payload and result are redacted exactly if it is failed, expired or acknowledged and old enough for that.
   */
  predicate CleanedRow(p: Policy, now: int, m: Message, m': Option<Message>) {
    if OlderThan(m, TypedTtl(p, m.status, m.typ), now) || OlderThan(m, DefaultTtl(p, m.status), now) then m'.None?
    else if m.status in {Failed, Expired, Acked} && OlderThan(m, p.redactAfter, now) then m' == Some(m.(payload := "{}", result := "{}"))
    else m' == Some(m)
  }

  /** No policy deletes or redacts a live message. */
  lemma CleanupSparesLive(t: Table, p: Policy, now: int, k: Key)
    requires k in t && t[k].status.Live()
    ensures k in Cleaned(t, p, now) && Cleaned(t, p, now)[k] == t[k]
  {
    forall r | r in Rules(p) ensures !Matches(r, t[k], now) {
      var i :| 0 <= i < |Rules(p)| && Rules(p)[i] == r;
      RulesAreTerminal(p, i);
    }
  }

  // ---------------------------------------------------------------- the table and its statements

  class MessageTable {
    var rows: Table

    constructor ()
      ensures rows == map[]
    {
      rows := map[];
    }

    constructor Of(rows: Table)
      ensures this.rows == rows
    {
      this.rows := rows;
    }

    /** `writeMessage`: inserts, and on a conflict replaces or leaves the row as it is. */
    method WriteMessage(k: Key, m: Message, replace: bool)
      modifies this
      ensures rows == After(old(rows), Write(k, m, replace))
      ensures k !in old(rows) ==> rows == old(rows)[k := m]
      ensures k in old(rows) ==> rows == if replace then old(rows)[k := m.(created := old(rows)[k].created)] else old(rows)
    {
      if k !in rows {
        rows := rows[k := m];
      } else if replace {
        rows := rows[k := Overwritten(rows[k], m)];
      }
    }

    /** The select of `leasePending`. */
    method SelectLeasable(actor: Id, now: int, limit: nat) returns (keys: seq<Key>)
      ensures FirstLeasable(rows, actor, now, limit, keys)
    {
      keys := [];
      var left := set k | k in rows && Candidate(rows, actor, now, k);
      while left != {} && |keys| < limit
        invariant |keys| <= limit
        invariant forall k :: k in left ==> Candidate(rows, actor, now, k)
        invariant forall i :: 0 <= i < |keys| ==> Candidate(rows, actor, now, keys[i])
        invariant forall i, j :: 0 <= i < j < |keys| ==> Sooner(rows, keys[i], keys[j])
        invariant forall k :: Candidate(rows, actor, now, k) ==> k in left || k in keys
        invariant forall k, i :: k in left && 0 <= i < |keys| ==> Sooner(rows, keys[i], k)
        decreases |left|
      {
        var k := Soonest(rows, actor, left);
        left, keys := left - {k}, keys + [k];
      }
    }

    /** `leasePending`: the first leasable messages go out, and their leases start. */
    method LeasePending(actor: Id, limit: int, now: int, leaseFor: int) returns (leased: seq<Key>)
      modifies this
      ensures FirstLeasable(old(rows), actor, now, if limit <= 0 then 100 else limit, leased)
      ensures Enabled(old(rows), Lease(leased, now, now + leaseFor))
      ensures rows == After(old(rows), Lease(leased, now, now + leaseFor))
    {
      leased := SelectLeasable(actor, now, if limit <= 0 then DEFAULT_LIMIT else limit);
      for i := 0 to |leased|
        invariant rows == After(old(rows), Lease(leased[..i], now, now + leaseFor))
        invariant rows.Keys == old(rows).Keys
      {
        LeaseOneMore(old(rows), leased[..i], leased[i], now, now + leaseFor);
        assert leased[..i + 1] == leased[..i] + [leased[i]];
        rows := rows[leased[i] := rows[leased[i]].(status := InFlight, available := now + leaseFor)];
      }
      assert leased[..|leased|] == leased;
    }

    method MarkMessageFailed(id: Id, error: string, retryAt: Option<int>, now: int)
      modifies this
      ensures rows == After(old(rows), MarkFailed(id, error, retryAt, now))
      ensures forall k :: k in rows && k.id == id ==> (rows[k].status.Pending? <==> retryAt.Some? && retryAt.value > now)
    {
      rows := map k | k in rows :: if k.id == id then MarkedFailed(rows[k], error, retryAt, now) else rows[k];
    }

    method MarkMessageDone(id: Id, status: Status, result: string, error: string)
      modifies this
      ensures rows == After(old(rows), MarkDone(id, status, result, error))
    {
      rows := map k | k in rows :: if k.id == id then rows[k].(status := status, result := result, error := error) else rows[k];
    }

    /** `requeueExpiredLeases`: ended leases are pending again; then what has expired is given up. */
    method RequeueExpiredLeases(actor: Id, now: int, refuses: bool) returns (ok: bool)
      modifies this
      ensures ok == !refuses
      ensures rows == if ok then After(After(old(rows), Requeue(actor, now)), Expire(actor, now)) else After(old(rows), Requeue(actor, now))
      ensures ok ==> forall k :: k in rows && k.actor == actor ==>
                (rows[k].status.Live() ==> rows[k].Unexpired(now)) && (rows[k].status.InFlight? ==> now < rows[k].available)
    {
      EndLeases(actor, now);
      if refuses {
        return false;
      }
      ExpireMessages(actor, now);
      return true;
    }

    method EndLeases(actor: Id, now: int)
      modifies this
      ensures rows == After(old(rows), Requeue(actor, now))
      ensures forall k :: k in rows && k.actor == actor && rows[k].status.InFlight? && rows[k].Unexpired(now) ==> now < rows[k].available
    {
      rows := map k | k in rows ::
        if k.actor == actor && rows[k].status.InFlight? && rows[k].available <= now && rows[k].Unexpired(now)
        then rows[k].(status := Pending) else rows[k];
    }

    method ExpireMessages(actor: Id, now: int)
      modifies this
      ensures rows == After(old(rows), Expire(actor, now))
      ensures forall k :: k in rows && k.actor == actor && rows[k].status.Live() ==>
                k in old(rows) && rows[k] == old(rows)[k] && rows[k].Unexpired(now)
    {
      rows := map k | k in rows ::
        if k.actor == actor && rows[k].status.Live() && !rows[k].Unexpired(now) then rows[k].(status := Expired) else rows[k];
    }

    method DeleteBy(rule: Rule, now: int)
      modifies this
      ensures rows == After(old(rows), Delete(rule, now))
    {
      rows := map k | k in rows && !Matches(rule, rows[k], now) :: rows[k];
    }

    method RedactOld(p: Policy, now: int)
      modifies this
      ensures rows == After(old(rows), Redact(p, now))
    {
      rows := map k | k in rows :: if Redactable(p, rows[k], now) then Redacted(rows[k]) else rows[k];
    }

    /**
     * `cleanupTable`: rule by rule, then redaction; `accepted` is the number of statements before one is refused.
     * Each statement is a step of the queue, so whatever runs keep holds in between, and live rows never notice.
     */
    method CleanupTable(p: Policy, now: int, accepted: nat) returns (ok: bool, ghost tables: seq<Table>, ghost steps: seq<Step>)
      modifies this
      ensures Run(tables, steps) && tables[0] == old(rows) && tables[|steps|] == rows
      ensures forall i :: 0 <= i < |steps| ==> steps[i] == if i < |Rules(p)| then Delete(Rules(p)[i], now) else Redact(p, now)
      ensures ok <==> accepted > |Rules(p)|
      ensures |steps| == if ok then |Rules(p)| + 1 else accepted
      ensures ok ==> rows == Cleaned(old(rows), p, now)
      ensures ok ==> forall k :: k in old(rows) ==> CleanedRow(p, now, old(rows)[k], if k in rows then Some(rows[k]) else None)
      ensures forall k :: k in old(rows) && old(rows)[k].status.Live() ==> k in rows && rows[k] == old(rows)[k]
    {
      var rules := Rules(p);
      tables, steps := [rows], [];
      for i := 0 to |rules|
        invariant Run(tables, steps) && tables[0] == old(rows) && tables[|steps|] == rows
        invariant |steps| == i <= accepted && forall j :: 0 <= j < |steps| ==> steps[j] == Delete(rules[j], now)
        invariant rows == Pruned(old(rows), rules[..i], now)
      {
        if accepted == i {
          LiveIsKept(old(rows), p, i, now);
          return false, tables, steps;
        }
        RulesAreTerminal(p, i);
        PruneOneMore(old(rows), rules, i, now);
        RunExtends(tables, steps, Delete(rules[i], now));
        DeleteBy(rules[i], now);
        tables, steps := tables + [rows], steps + [Delete(rules[i], now)];
      }
      LiveIsKept(old(rows), p, |rules|, now);
      assert rules[..|rules|] == rules;
      if accepted == |rules| {
        return false, tables, steps;
      }
      RunExtends(tables, steps, Redact(p, now));
      RedactOld(p, now);
      tables, steps := tables + [rows], steps + [Redact(p, now)];
      PrunedAndRedacted(old(rows), p, now);
      forall k | k in old(rows) ensures CleanedRow(p, now, old(rows)[k], if k in rows then Some(rows[k]) else None) {
        DeletableIff(p, old(rows)[k], now);
      }
      return true, tables, steps;
    }
  }

  /** The rows that none of the rules deletes. */
  function Pruned(t: Table, rules: seq<Rule>, now: int): Table {
    map k | k in t && (forall r :: r in rules ==> !Matches(r, t[k], now)) :: t[k]
  }

  lemma PruneOneMore(t: Table, rules: seq<Rule>, i: nat, now: int)
    requires i < |rules|
    ensures Pruned(t, rules[..i + 1], now) == After(Pruned(t, rules[..i], now), Delete(rules[i], now))
  {
    assert rules[..i + 1] == rules[..i] + [rules[i]];
  }

  lemma PrunedAndRedacted(t: Table, p: Policy, now: int)
    ensures After(Pruned(t, Rules(p), now), Redact(p, now)) == Cleaned(t, p, now)
  {
  }

  lemma LiveIsKept(t: Table, p: Policy, n: nat, now: int)
    requires n <= |Rules(p)|
    ensures forall k :: k in t && t[k].status.Live() ==> k in Pruned(t, Rules(p)[..n], now)
  {
    forall k, r | k in t && t[k].status.Live() && r in Rules(p)[..n] ensures !Matches(r, t[k], now) {
      var i :| 0 <= i < n && Rules(p)[i] == r;
      RulesAreTerminal(p, i);
    }
  }

  lemma LeaseOneMore(t: Table, keys: seq<Key>, k: Key, now: int, until: int)
    requires k in t
    ensures var t' := After(t, Lease(keys, now, until));
            k in t' && After(t, Lease(keys + [k], now, until)) == t'[k := t'[k].(status := InFlight, available := until)]
  {
  }

  /** The candidate that comes first. */
  method Soonest(t: Table, actor: Id, keys: set<Key>) returns (first: Key)
    requires keys != {} && forall k :: k in keys ==> k in t && k.actor == actor
    ensures first in keys && forall k :: k in keys && k != first ==> Sooner(t, first, k)
  {
    var left := keys;
    first :| first in left;
    left := left - {first};
    while left != {}
      invariant left <= keys && first in keys && first !in left
      invariant forall k :: k in keys && k !in left && k != first ==> Sooner(t, first, k)
      decreases left
    {
      var k :| k in left;
      left := left - {k};
      Total(first.id, k.id);
      if Sooner(t, k, first) {
        forall q | q in keys && q !in left && q != k ensures Sooner(t, k, q) {
          if q != first { SoonerTransitive(t, k, first, q); }
        }
        first := k;
      }
    }
  }

  lemma SoonerTransitive(t: Table, a: Key, b: Key, c: Key)
    requires a in t && b in t && c in t && Sooner(t, a, b) && Sooner(t, b, c)
    ensures Sooner(t, a, c)
  {
    if Less(a.id, b.id) && Less(b.id, c.id) { Transitive(a.id, b.id, c.id); }
  }
}
