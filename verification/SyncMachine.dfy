/**
 * Credential synchronisation between one node agent and the server, as a state machine.
 *
 * Every SQL statement or transaction is one step: server writes, the fetch of one page,
 * the application of one change, the end of a pass, and the finalization of connections
 * after a refresh. Server writes may fall between any two of the other steps and a pass
 * may stop anywhere. A write carries the clock reading that stamps it; the machine asks
 * only that no manifest was started between that reading and the commit.
 */
module SyncMachine {
  import opened Ids
  import opened Manifest
  import opened Wrappers

  datatype Status = Active | Held | Deleted | Absent

  /** One row of the connections table together with its credential material ("" when it has none). */
  datatype Row = Row(account: string, desired: Status, version: int,
                     applied: Status, appliedVersion: int, material: string)

  /** `accounts` holds the active accounts. */
  datatype Server = Server(rows: map<Id, Row>, accounts: set<string>, clock: int)

  /** A pass of the agent: `pending` is the part of the fetched page that is not applied yet. */
  datatype Pass =
    | Idle
    | Running(full: bool, since: int, pageSize: int, start: int, from: Id,
              pending: seq<Change>, more: bool, keep: map<Id, string>, refresh: Option<int>)

  /** A successful refresh: the snapshot version it answers and the manifest start of its pass. */
  datatype Reply = Reply(version: int, start: int)

  /** `lastStart` is the latest manifest start that a pass took from the server clock. */
  datatype State = State(server: Server, lastStart: int, users: map<Id, string>, cursor: Option<int>,
                         pass: Pass, replies: set<Reply>)

  // ---------------------------------------------------------------- server writes

  /** The version of a row written at time t: never reused, never below the clock reading. */
  function Bump(version: int, t: int): int {
    if version >= t then version + 1 else t
  }

  predicate Effective(r: Row, accounts: set<string>) {
    r.account in accounts && r.desired == Active && r.material != ""
  }

  function StoredOf(id: Id, r: Row, accounts: set<string>): Stored {
    Stored(id, Effective(r, accounts), r.version, r.material)
  }

  function CreateConnection(rows: map<Id, Row>, id: Id, account: string, material: string, t: int): map<Id, Row> {
    rows[id := Row(account, Active, t, Absent, 0, material)]
  }

  function UpdateDesiredStatus(rows: map<Id, Row>, id: Id, status: Status, t: int): map<Id, Row> {
    if id in rows && status != Absent
    then rows[id := rows[id].(desired := status, version := Bump(rows[id].version, t))]
    else rows
  }

  function SoftDeleteNode(rows: map<Id, Row>, t: int): map<Id, Row> {
    map id | id in rows ::
      if rows[id].desired == Deleted then rows[id]
      else rows[id].(desired := Deleted, version := Bump(rows[id].version, t))
  }

  /** A new node configuration re-issues the material of every connection that is not deleted. */
  function SaveNodeConfig(rows: map<Id, Row>, materials: map<Id, string>, t: int): map<Id, Row> {
    map id | id in rows ::
      if rows[id].desired == Deleted then rows[id]
      else rows[id].(version := Bump(rows[id].version, t),
                     material := if id in materials then materials[id] else rows[id].material)
  }

  /** `FinalizeConnectionsForAuthSnapshot`: the candidates were listed earlier, the update re-checks the version. */
  function FinalizeConnections(rows: map<Id, Row>, account: string, v: int, candidates: set<Id>): map<Id, Row> {
    map id | id in rows ::
      if id in candidates && rows[id].account == account && rows[id].version <= v
      then rows[id].(applied := rows[id].desired, appliedVersion := rows[id].version)
      else rows[id]
  }

  predicate SameMark(r: Row, r': Row) {
    r'.appliedVersion == r.appliedVersion && r'.applied == r.applied
  }

  /** What all server writes have in common: an edited row gets a higher version, at least the stamp. */
  ghost predicate Stamped(rows: map<Id, Row>, rows': map<Id, Row>, t: int) {
    && rows.Keys <= rows'.Keys
    && (forall id :: id in rows ==>
          rows'[id] == rows[id] ||
          (rows[id].version < rows'[id].version && t <= rows'[id].version && SameMark(rows[id], rows'[id])))
    && (forall id :: id in rows' && id !in rows ==>
          id != "" && t <= rows'[id].version && rows'[id].appliedVersion == 0)
  }

  // ---------------------------------------------------------------- paging

  predicate Above(from: Id, id: Id) {
    from == "" || Less(from, id)
  }

  ghost predicate HasId(changes: seq<Change>, id: Id) {
    exists i :: 0 <= i < |changes| && changes[i].id == id
  }

  ghost predicate AllBelow(changes: seq<Change>, id: Id) {
    forall i :: 0 <= i < |changes| ==> Less(changes[i].id, id)
  }

  /** The page a query gets from the table: ascending, faithful, and nothing selected is skipped. */
  ghost predicate IsPage(sv: Server, q: Query, page: seq<Change>) {
    && |page| <= q.pageSize
    && AscendingChanges(page)
    && (forall i :: 0 <= i < |page| ==>
          && page[i].id in sv.rows
          && Selected(StoredOf(page[i].id, sv.rows[page[i].id], sv.accounts), q)
          && page[i] == ChangeOf(StoredOf(page[i].id, sv.rows[page[i].id], sv.accounts)))
    && (forall id :: id in sv.rows && Selected(StoredOf(id, sv.rows[id], sv.accounts), q) ==>
          HasId(page, id) || (|page| == q.pageSize && AllBelow(page, id)))
  }

  // ---------------------------------------------------------------- pass modes

  /** What the agent asks for: a full pass when forced or when it has no cursor. */
  function AgentFull(full: bool, cursor: Option<int>): bool {
    full || cursor.None?
  }

  function AgentSince(full: bool, cursor: Option<int>): int {
    if AgentFull(full, cursor) then 0 else cursor.value
  }

  /** `ManifestHandler.Handle`: a zero cursor means a full manifest. */
  function ServerFull(full: bool, since: int): bool {
    full || since == 0
  }

  /** The mode the pass runs in: the agent adopts the mode of the first response. */
  function PassFull(full: bool, cursor: Option<int>): bool {
    AgentFull(full, cursor) || ServerFull(AgentFull(full, cursor), AgentSince(full, cursor))
  }

  // ---------------------------------------------------------------- steps

  datatype Step =
    | Tick(to: int)
    | Create(id: Id, account: string, material: string, t: int)
    | SetDesired(id: Id, status: Status, t: int)
    | DeleteNode(t: int)
    | SaveConfig(materials: map<Id, string>, t: int)
    | Begin(full: bool, pageSize: int, refresh: Option<int>)
    | FetchPage(page: seq<Change>)
    | ApplyChange
    | FinishPass(answer: bool)
    | AbortPass
    | Finalize(reply: Reply, account: string, candidates: set<Id>)

  ghost predicate StampOk(s: State, t: int) {
    0 < t && s.lastStart <= t <= s.server.clock
  }

  function WithRows(s: State, rows: map<Id, Row>): State {
    s.(server := s.server.(rows := rows))
  }

  function QueryOf(p: Pass): Query
    requires p.Running?
  {
    Query(p.full, p.since, p.from, p.pageSize)
  }

  function BeginState(s: State, full: bool, pageSize: int, refresh: Option<int>): State {
    s.(lastStart := s.server.clock,
       pass := Running(PassFull(full, s.cursor), AgentSince(full, s.cursor), pageSize, s.server.clock, "",
                       [], true, map[], refresh))
  }

  /** An incremental pass writes each change to the store; a full pass only collects what to keep. */
  function ApplyState(s: State): State
    requires s.pass.Running? && s.pass.pending != []
  {
    var ch := s.pass.pending[0];
    var p := s.pass.(from := ch.id, pending := s.pass.pending[1..]);
    if ch.op == Upsert then
      if p.full then s.(pass := p.(keep := p.keep[ch.id := ch.material]))
      else s.(pass := p, users := s.users[ch.id := ch.material])
    else
      if p.full then s.(pass := p) else s.(pass := p, users := s.users - {ch.id})
  }

  /**
   * A full pass replaces the store and its cursor in one transaction. The refresh that asked for
   * the pass is answered unless removing credentials from the runtime fails afterwards.
   */
  function FinishState(s: State, answer: bool): State
    requires s.pass.Running?
  {
    s.(users := if s.pass.full then s.pass.keep else s.users,
       cursor := Some(s.pass.start),
       pass := Idle,
       replies := s.replies + if answer && s.pass.refresh.Some? then {Reply(s.pass.refresh.value, s.pass.start)} else {})
  }

  ghost predicate Next(s: State, step: Step, s': State) {
    match step
    case Tick(to) => s.server.clock <= to && s' == s.(server := s.server.(clock := to))
    case Create(id, account, material, t) =>
      StampOk(s, t) && id != "" && id !in s.server.rows
      && s' == WithRows(s, CreateConnection(s.server.rows, id, account, material, t))
    case SetDesired(id, status, t) =>
      StampOk(s, t) && s' == WithRows(s, UpdateDesiredStatus(s.server.rows, id, status, t))
    case DeleteNode(t) =>
      StampOk(s, t) && s' == WithRows(s, SoftDeleteNode(s.server.rows, t))
    case SaveConfig(materials, t) =>
      StampOk(s, t) && s' == WithRows(s, SaveNodeConfig(s.server.rows, materials, t))
    case Begin(full, pageSize, refresh) =>
      s.pass.Idle? && ValidPageSize(pageSize) && s' == BeginState(s, full, pageSize, refresh)
    case FetchPage(page) =>
      s.pass.Running? && s.pass.pending == [] && s.pass.more && IsPage(s.server, QueryOf(s.pass), page)
      && s' == s.(pass := s.pass.(pending := page, more := |page| == s.pass.pageSize))
    case ApplyChange => s.pass.Running? && s.pass.pending != [] && s' == ApplyState(s)
    case FinishPass(answer) => s.pass.Running? && s.pass.pending == [] && !s.pass.more && s' == FinishState(s, answer)
    case AbortPass => s.pass.Running? && s' == s.(pass := Idle)
    case Finalize(reply, account, candidates) =>
      reply in s.replies && s' == WithRows(s, FinalizeConnections(s.server.rows, account, reply.version, candidates))
  }

  ghost predicate Init(s: State) {
    s.server.rows == map[] && 0 < s.server.clock && s.lastStart == 0
    && s.users == map[] && s.cursor == None && s.pass == Idle && s.replies == {}
  }

  ghost predicate Run(states: seq<State>, steps: seq<Step>) {
    && |states| == |steps| + 1
    && forall i :: 0 <= i < |steps| ==> Next(states[i], steps[i], states[i + 1])
  }

  lemma RunExtends(states: seq<State>, steps: seq<Step>, step: Step, s: State)
    requires Run(states, steps) && Next(states[|steps|], step, s)
    ensures Run(states + [s], steps + [step])
  {
    var states', steps' := states + [s], steps + [step];
    forall i | 0 <= i < |steps'| ensures Next(states'[i], steps'[i], states'[i + 1]) {
      if i < |steps| { assert Next(states[i], steps[i], states[i + 1]); }
    }
  }

  // ---------------------------------------------------------------- what the two sides agree on

  /** The store holds the connection, with its current material, exactly when it is active on the server. */
  ghost predicate Holds(sv: Server, store: map<Id, string>, id: Id)
    requires id in sv.rows
  {
    if Effective(sv.rows[id], sv.accounts) then id in store && store[id] == sv.rows[id].material else id !in store
  }

  /** Sync safety: the agent is right about every connection whose version lies below its cursor. */
  ghost predicate SyncSafe(s: State) {
    s.cursor.Some? ==>
      forall id :: id in s.server.rows && s.server.rows[id].version < s.cursor.value ==> Holds(s.server, s.users, id)
  }

  /** A connection whose current version is marked applied is what the agent store holds. */
  ghost predicate AppliedHolds(s: State) {
    forall id :: id in s.server.rows && s.server.rows[id].appliedVersion == s.server.rows[id].version ==>
                   Holds(s.server, s.users, id)
  }

  // ---------------------------------------------------------------- the invariant

  ghost predicate RowsOk(s: State) {
    && 0 < s.server.clock && 0 <= s.lastStart <= s.server.clock
    && (forall id :: id in s.server.rows ==>
          id != "" && 0 < s.server.rows[id].version && s.server.rows[id].appliedVersion <= s.server.rows[id].version)
    && s.users.Keys <= s.server.rows.Keys
  }

  ghost predicate CursorOk(s: State) {
    && (s.cursor.Some? ==> 0 < s.cursor.value <= s.lastStart)
    && (forall r :: r in s.replies ==> s.cursor.Some? && r.start <= s.cursor.value)
  }

  /** A finalization whose snapshot lies below the manifest start of the pass that served it. */
  predicate Timely(step: Step) {
    step.Finalize? ==> step.reply.version < step.reply.start
  }

  /** Everything marked applied at its current version lies below the cursor. */
  ghost predicate MarksOk(s: State) {
    forall id :: id in s.server.rows && s.server.rows[id].appliedVersion == s.server.rows[id].version ==>
      s.cursor.Some? && s.server.rows[id].version < s.cursor.value
  }

  function Collected(s: State): map<Id, string>
    requires s.pass.Running?
  {
    if s.pass.full then s.pass.keep else s.users
  }

  predicate Wanted(sv: Server, p: Pass, id: Id)
    requires p.Running? && id in sv.rows
  {
    if p.full then Effective(sv.rows[id], sv.accounts) else p.since <= sv.rows[id].version
  }

  ghost predicate PassShape(s: State)
    requires s.pass.Running?
  {
    var p := s.pass;
    && ValidPageSize(p.pageSize) && 0 < p.start <= s.lastStart
    && (!p.full ==> s.cursor == Some(p.since))
    && (s.cursor.Some? ==> s.cursor.value <= p.start)
    && p.keep.Keys <= s.server.rows.Keys
    && (forall id :: id in p.keep ==> !Above(p.from, id))
    && AscendingChanges(p.pending)
    && (forall i :: 0 <= i < |p.pending| ==>
          && p.pending[i].id in s.server.rows
          && Above(p.from, p.pending[i].id)
          && (!p.full ==> p.since <= s.server.rows[p.pending[i].id].version))
  }

  /** Up to the page cursor the pass is right about every row below `bound`; above it nothing wanted is lost. */
  ghost predicate PassRight(s: State, bound: int)
    requires s.pass.Running?
  {
    var p := s.pass;
    && (forall id :: id in s.server.rows && s.server.rows[id].version < bound && !Above(p.from, id) ==>
          Holds(s.server, Collected(s), id))
    && (forall i :: 0 <= i < |p.pending| && p.pending[i].id in s.server.rows && s.server.rows[p.pending[i].id].version < bound ==>
          p.pending[i] == ChangeOf(StoredOf(p.pending[i].id, s.server.rows[p.pending[i].id], s.server.accounts)))
    && (forall id :: id in s.server.rows && s.server.rows[id].version < bound && Above(p.from, id) && Wanted(s.server, p, id) ==>
          HasId(p.pending, id) || (p.more && AllBelow(p.pending, id)))
  }

  ghost predicate Inv(s: State) {
    && RowsOk(s) && CursorOk(s) && SyncSafe(s)
    && (s.pass.Running? ==> PassShape(s) && PassRight(s, s.pass.start))
  }

  // ---------------------------------------------------------------- server writes keep it

  lemma WritesAreStamped(s: State, step: Step, s': State)
    requires Next(s, step, s') && RowsOk(s)
    requires step.Create? || step.SetDesired? || step.DeleteNode? || step.SaveConfig?
    ensures s' == WithRows(s, s'.server.rows)
    ensures Stamped(s.server.rows, s'.server.rows, step.t) && StampOk(s, step.t)
  {
  }

  lemma StampedKeepsInv(s: State, rows': map<Id, Row>, t: int)
    requires Inv(s) && StampOk(s, t) && Stamped(s.server.rows, rows', t)
    ensures Inv(WithRows(s, rows'))
  {
    var s' := WithRows(s, rows');
    forall id | id in rows' ensures id != "" && 0 < rows'[id].version && rows'[id].appliedVersion <= rows'[id].version { }
    // A row below any manifest start so far was not written just now.
    forall id | id in rows' && rows'[id].version < s.lastStart ensures id in s.server.rows && rows'[id] == s.server.rows[id] { }
    if s.cursor.Some? {
      forall id | id in rows' && rows'[id].version < s.cursor.value ensures Holds(s'.server, s'.users, id) {
        assert Holds(s.server, s.users, id);
      }
    }
    if s.pass.Running? {
      StampedKeepsPass(s, rows', t);
    }
  }

  lemma StampedKeepsPass(s: State, rows': map<Id, Row>, t: int)
    requires Inv(s) && s.pass.Running? && StampOk(s, t) && Stamped(s.server.rows, rows', t)
    ensures PassShape(WithRows(s, rows')) && PassRight(WithRows(s, rows'), s.pass.start)
  {
    var s' := WithRows(s, rows');
    var p := s.pass;
    forall id | id in rows' && rows'[id].version < p.start ensures id in s.server.rows && rows'[id] == s.server.rows[id] { }
    forall id | id in rows' && rows'[id].version < p.start && !Above(p.from, id) ensures Holds(s'.server, Collected(s'), id) {
      assert Holds(s.server, Collected(s), id);
    }
    forall id | id in rows' && rows'[id].version < p.start && Above(p.from, id) && Wanted(s'.server, p, id)
      ensures HasId(p.pending, id) || (p.more && AllBelow(p.pending, id))
    {
      assert Wanted(s.server, p, id);
    }
  }

  ghost predicate SameDesired(sv: Server, sv': Server) {
    && sv'.accounts == sv.accounts && sv'.rows.Keys == sv.rows.Keys
    && (forall id :: id in sv.rows ==>
          sv'.rows[id] == sv.rows[id].(applied := sv'.rows[id].applied, appliedVersion := sv'.rows[id].appliedVersion))
  }

  /** What the agent is right about does not depend on the clock or on what is marked applied. */
  lemma SameDesiredKeeps(s: State, sv': Server)
    requires SyncSafe(s) && SameDesired(s.server, sv')
    requires s.pass.Running? ==> PassShape(s) && PassRight(s, s.pass.start)
    ensures SyncSafe(s.(server := sv'))
    ensures s.pass.Running? ==> PassShape(s.(server := sv')) && PassRight(s.(server := sv'), s.pass.start)
  {
    var s' := s.(server := sv');
    forall id | id in s.server.rows
      ensures Holds(s'.server, s'.users, id) == Holds(s.server, s.users, id)
      ensures s.pass.Running? ==>
                && Holds(s'.server, Collected(s'), id) == Holds(s.server, Collected(s), id)
                && Wanted(s'.server, s'.pass, id) == Wanted(s.server, s.pass, id)
                && StoredOf(id, s'.server.rows[id], s'.server.accounts) == StoredOf(id, s.server.rows[id], s.server.accounts)
    {
    }
  }

  // ---------------------------------------------------------------- the steps of a pass keep it

  lemma BeginKeeps(s: State, full: bool, pageSize: int, refresh: Option<int>, bound: int)
    requires RowsOk(s) && CursorOk(s) && SyncSafe(s) && s.pass.Idle? && ValidPageSize(pageSize)
    ensures var s' := BeginState(s, full, pageSize, refresh);
            RowsOk(s') && CursorOk(s') && SyncSafe(s') && PassShape(s') && PassRight(s', bound)
  {
    var s' := BeginState(s, full, pageSize, refresh);
    if s.cursor.Some? {
      forall id | id in s.server.rows && s.server.rows[id].version < s.cursor.value ensures Holds(s'.server, s'.users, id) {
        assert Holds(s.server, s.users, id);
      }
    }
  }

  lemma FetchKeeps(s: State, page: seq<Change>, s': State, bound: int)
    requires RowsOk(s) && CursorOk(s) && SyncSafe(s) && s.pass.Running? && PassShape(s) && PassRight(s, bound)
    requires Next(s, FetchPage(page), s')
    ensures RowsOk(s') && CursorOk(s') && SyncSafe(s') && PassShape(s') && PassRight(s', bound)
  {
    var p := s.pass;
    forall id | id in s.server.rows && s.server.rows[id].version < bound && !Above(p.from, id)
      ensures Holds(s'.server, Collected(s'), id)
    {
      assert Holds(s.server, Collected(s), id);
    }
    forall id | id in s.server.rows && s.server.rows[id].version < bound && Above(p.from, id) && Wanted(s'.server, s'.pass, id)
      ensures HasId(page, id) || (s'.pass.more && AllBelow(page, id))
    {
      assert Selected(StoredOf(id, s.server.rows[id], s.server.accounts), QueryOf(p));
    }
    SafeUnchanged(s, s');
  }

  lemma SafeUnchanged(s: State, s': State)
    requires SyncSafe(s) && s'.server == s.server && s'.users == s.users && s'.cursor == s.cursor
    ensures SyncSafe(s')
  {
    if s.cursor.Some? {
      forall id | id in s.server.rows && s.server.rows[id].version < s.cursor.value ensures Holds(s'.server, s'.users, id) {
        assert Holds(s.server, s.users, id);
      }
    }
  }

  /** A row between the old page cursor and the next change is one the pass does not want. */
  lemma SkippedRow(s: State, bound: int, id: Id)
    requires RowsOk(s) && SyncSafe(s) && s.pass.Running? && PassShape(s) && PassRight(s, bound)
    requires s.pass.pending != [] && id in s.server.rows && s.server.rows[id].version < bound
    requires Above(s.pass.from, id) && Less(id, s.pass.pending[0].id)
    ensures Holds(s.server, Collected(s), id)
  {
    StrictTotalOrder();
    assert !Wanted(s.server, s.pass, id);
  }

  lemma ApplyKeepsShape(s: State, bound: int)
    requires RowsOk(s) && CursorOk(s) && SyncSafe(s) && s.pass.Running? && PassShape(s) && PassRight(s, bound) && s.pass.pending != []
    ensures var s' := ApplyState(s); RowsOk(s') && CursorOk(s') && SyncSafe(s') && PassShape(s')
  {
    var s', p := ApplyState(s), s.pass;
    var ch, tail := p.pending[0], p.pending[1..];
    Irreflexive(ch.id);
    forall id | id in s'.pass.keep ensures !Above(ch.id, id) {
      if Less(ch.id, id) {
        assert id in p.keep;
        if p.from != "" { Transitive(p.from, ch.id, id); }
        assert false;
      }
    }
    forall i | 0 <= i < |tail| ensures Above(ch.id, tail[i].id) {
      assert Less(p.pending[0].id, p.pending[i + 1].id);
    }
    if s.cursor.Some? {
      forall id | id in s.server.rows && s.server.rows[id].version < s.cursor.value ensures Holds(s'.server, s'.users, id) {
        assert Holds(s.server, s.users, id);
      }
    }
  }

  lemma ApplyKeepsRight(s: State, bound: int)
    requires RowsOk(s) && SyncSafe(s) && s.pass.Running? && PassShape(s) && PassRight(s, bound) && s.pass.pending != []
    ensures PassRight(ApplyState(s), bound)
  {
    var s', p := ApplyState(s), s.pass;
    var ch, tail := p.pending[0], p.pending[1..];
    forall id | id in s.server.rows && s.server.rows[id].version < bound && !Above(ch.id, id)
      ensures Holds(s'.server, Collected(s'), id)
    {
      Total(id, ch.id);
      if id != ch.id {
        if Above(p.from, id) { SkippedRow(s, bound, id); } else { assert Holds(s.server, Collected(s), id); }
        assert Holds(s.server, Collected(s), id);
      }
    }
    forall i | 0 <= i < |tail| && tail[i].id in s.server.rows && s.server.rows[tail[i].id].version < bound
      ensures tail[i] == ChangeOf(StoredOf(tail[i].id, s.server.rows[tail[i].id], s.server.accounts))
    {
      assert p.pending[i + 1] == tail[i];
    }
    forall id | id in s.server.rows && s.server.rows[id].version < bound && Above(ch.id, id) && Wanted(s'.server, s'.pass, id)
      ensures HasId(tail, id) || (p.more && AllBelow(tail, id))
    {
      if p.from != "" { Transitive(p.from, ch.id, id); }
      assert Wanted(s.server, p, id);
      if HasId(p.pending, id) {
        Irreflexive(id);
        var i :| 0 <= i < |p.pending| && p.pending[i].id == id;
        assert tail[i - 1].id == id;
      } else {
        forall i | 0 <= i < |tail| ensures Less(tail[i].id, id) { assert p.pending[i + 1] == tail[i]; }
      }
    }
  }

  /** When the last page is applied, the pass is right about every row below `bound`. */
  lemma CollectedIsRight(s: State, bound: int, id: Id)
    requires RowsOk(s) && SyncSafe(s) && s.pass.Running? && PassShape(s) && PassRight(s, bound)
    requires s.pass.pending == [] && !s.pass.more
    requires id in s.server.rows && s.server.rows[id].version < bound
    ensures Holds(s.server, Collected(s), id)
  {
    if Above(s.pass.from, id) {
      assert !Wanted(s.server, s.pass, id);
    }
  }

  lemma FinishKeeps(s: State, answer: bool, s': State)
    requires Inv(s) && Next(s, FinishPass(answer), s')
    ensures Inv(s')
  {
    forall id | id in s.server.rows && s.server.rows[id].version < s.pass.start ensures Holds(s'.server, s'.users, id) {
      CollectedIsRight(s, s.pass.start, id);
    }
  }

  lemma WriteKeepsInv(s: State, step: Step, s': State)
    requires Inv(s) && Next(s, step, s')
    requires step.Create? || step.SetDesired? || step.DeleteNode? || step.SaveConfig?
    ensures Inv(s')
  {
    WritesAreStamped(s, step, s');
    StampedKeepsInv(s, s'.server.rows, step.t);
  }

  lemma MarkKeepsInv(s: State, step: Step, s': State)
    requires Inv(s) && Next(s, step, s') && (step.Tick? || step.Finalize?)
    ensures Inv(s')
  {
    SameDesiredKeeps(s, s'.server);
  }

  lemma PassStepKeepsInv(s: State, step: Step, s': State)
    requires Inv(s) && Next(s, step, s')
    requires step.Begin? || step.FetchPage? || step.ApplyChange? || step.AbortPass?
    ensures Inv(s')
  {
    match step {
      case Begin(full, pageSize, refresh) => BeginKeeps(s, full, pageSize, refresh, s.server.clock);
      case FetchPage(page) => FetchKeeps(s, page, s', s.pass.start);
      case ApplyChange => ApplyKeepsShape(s, s.pass.start); ApplyKeepsRight(s, s.pass.start);
      case AbortPass => SafeUnchanged(s, s');
    }
  }

  lemma NextKeepsInv(s: State, step: Step, s': State)
    requires Inv(s) && Next(s, step, s')
    ensures Inv(s')
  {
    if step.FinishPass? {
      FinishKeeps(s, step.answer, s');
    } else if step.Tick? || step.Finalize? {
      MarkKeepsInv(s, step, s');
    } else if step.Begin? || step.FetchPage? || step.ApplyChange? || step.AbortPass? {
      PassStepKeepsInv(s, step, s');
    } else {
      WriteKeepsInv(s, step, s');
    }
  }

  /** Over every run, whatever is written between pages and wherever passes stop. */
  lemma {:induction false} RunKeepsInv(states: seq<State>, steps: seq<Step>, n: nat)
    requires Run(states, steps) && Inv(states[0]) && n < |states|
    ensures Inv(states[n])
  {
    if n > 0 {
      RunKeepsInv(states, steps, n - 1);
      NextKeepsInv(states[n - 1], steps[n - 1], states[n]);
    }
  }

  /**
   * Sync safety, in every state of every run from the empty system: the agent is right about all
   * connections below its cursor.
   */
  lemma SyncSafety(states: seq<State>, steps: seq<Step>, n: nat)
    requires Run(states, steps) && Init(states[0]) && n < |states|
    ensures SyncSafe(states[n])
  {
    RunKeepsInv(states, steps, n);
  }

  lemma TimelyKeepsMarks(s: State, step: Step, s': State)
    requires Inv(s) && MarksOk(s) && Next(s, step, s') && Timely(step)
    ensures MarksOk(s')
  {
    if step.Create? || step.SetDesired? || step.DeleteNode? || step.SaveConfig? {
      WritesAreStamped(s, step, s');
    }
  }

  ghost predicate AllTimely(steps: seq<Step>, n: nat)
    requires n <= |steps|
  {
    forall i :: 0 <= i < n ==> Timely(steps[i])
  }

  lemma {:induction false} RunKeepsMarks(states: seq<State>, steps: seq<Step>, n: nat)
    requires Run(states, steps) && Init(states[0]) && n < |states| && AllTimely(steps, n)
    ensures MarksOk(states[n])
  {
    if n > 0 {
      RunKeepsMarks(states, steps, n - 1);
      RunKeepsInv(states, steps, n - 1);
      TimelyKeepsMarks(states[n - 1], steps[n - 1], states[n]);
    }
  }

  /**
   * Applied means applied: as long as all finalizations so far were timely, every connection whose current
   * version is marked applied is one that the agent store holds as desired.
   */
  lemma AppliedMeansApplied(states: seq<State>, steps: seq<Step>, n: nat)
    requires Run(states, steps) && Init(states[0]) && n < |states| && AllTimely(steps, n)
    ensures AppliedHolds(states[n])
  {
    RunKeepsInv(states, steps, n);
    RunKeepsMarks(states, steps, n);
  }

  // ---------------------------------------------------------------- where marks come from

  /** The finalization at step i marked the version that the row had then. */
  ghost predicate MarkedAt(states: seq<State>, steps: seq<Step>, i: int, id: Id, row: Row) {
    && 0 <= i < |steps| && i < |states| && steps[i].Finalize? && id in states[i].server.rows && id in steps[i].candidates
    && var r := states[i].server.rows[id];
       r.account == steps[i].account && r.version == row.appliedVersion <= steps[i].reply.version && r.desired == row.applied
  }

  /** A step keeps the mark of a row, or it is a finalization that sets it to the row's version and desired status. */
  lemma MarkStep(s: State, step: Step, s': State, id: Id)
    requires Next(s, step, s') && RowsOk(s) && id in s'.server.rows && s'.server.rows[id].appliedVersion != 0
    ensures id in s.server.rows
    ensures SameMark(s.server.rows[id], s'.server.rows[id]) ||
            (step.Finalize? && id in step.candidates && s.server.rows[id].account == step.account
             && s.server.rows[id].version == s'.server.rows[id].appliedVersion <= step.reply.version
             && s.server.rows[id].desired == s'.server.rows[id].applied)
  {
    if step.Create? || step.SetDesired? || step.DeleteNode? || step.SaveConfig? {
      WritesAreStamped(s, step, s');
    }
  }

  /**
   * Over every run, whatever is marked applied was marked by a finalization whose snapshot covers the marked
   * version and which found that version and that desired status: a change above the snapshot is never marked.
   */
  lemma {:induction false} MarksAreCovered(states: seq<State>, steps: seq<Step>, n: nat, id: Id)
    requires Run(states, steps) && Init(states[0]) && n < |states|
    requires id in states[n].server.rows && states[n].server.rows[id].appliedVersion != 0
    ensures exists i :: i < n && MarkedAt(states, steps, i, id, states[n].server.rows[id])
  {
    if n > 0 {
      RunKeepsInv(states, steps, n - 1);
      MarkStep(states[n - 1], steps[n - 1], states[n], id);
      if SameMark(states[n - 1].server.rows[id], states[n].server.rows[id]) {
        MarksAreCovered(states, steps, n - 1, id);
        var i :| i < n - 1 && MarkedAt(states, steps, i, id, states[n - 1].server.rows[id]);
        assert MarkedAt(states, steps, i, id, states[n].server.rows[id]);
      } else {
        assert MarkedAt(states, steps, n - 1, id, states[n].server.rows[id]);
      }
    }
  }
}
