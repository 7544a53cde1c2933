/**
 * Consequences of the synchronisation invariant, and the exact limits of what it promises:
 * quiet passes, pass modes, account status changes, late commits and early finalization.
 */
module SyncResults {
  import opened Ids
  import opened Manifest
  import opened SyncMachine
  import opened Wrappers

  // ---------------------------------------------------------------- pass modes

  /**
   * Agent and server agree on the mode of a pass: on the first page whatever the stored cursor
   * is, and on every later page, which the agent requests in the mode it adopted.
   */
  lemma ModesAgree(full: bool, cursor: Option<int>)
    ensures var since := AgentSince(full, cursor); var mode := PassFull(full, cursor);
            && mode == ServerFull(AgentFull(full, cursor), since)
            && mode == ServerFull(mode, since)
            && (!mode ==> cursor == Some(since) && since != 0 && !full)
            && (mode <==> full || cursor == None || cursor == Some(0))
  {
  }

  // ---------------------------------------------------------------- quiet passes

  /** The store a node should have: the material of every effective connection. */
  function ActiveStore(sv: Server): map<Id, string> {
    map id | id in sv.rows && Effective(sv.rows[id], sv.accounts) :: sv.rows[id].material
  }

  /** A complete pass during which nothing is written on the server. */
  ghost predicate QuietPass(states: seq<State>, steps: seq<Step>) {
    && Run(states, steps) && 2 <= |steps|
    && steps[0].Begin? && steps[|steps| - 1].FinishPass?
    && forall i :: 0 < i < |steps| - 1 ==> steps[i].FetchPage? || steps[i].ApplyChange?
  }

  lemma {:induction false} QuietPassIsRight(states: seq<State>, steps: seq<Step>, n: nat, bound: int)
    requires QuietPass(states, steps) && Inv(states[0]) && 0 < n < |steps|
    ensures var s := states[n];
            && s.server == states[0].server && s.pass.Running? && s.pass.start == s.server.clock
            && RowsOk(s) && CursorOk(s) && SyncSafe(s) && PassShape(s) && PassRight(s, bound)
  {
    if n == 1 {
      assert Next(states[0], steps[0], states[1]);
      BeginKeeps(states[0], steps[0].full, steps[0].pageSize, steps[0].refresh, bound);
    } else {
      QuietPassIsRight(states, steps, n - 1, bound);
      assert Next(states[n - 1], steps[n - 1], states[n]);
      QuietStep(states[n - 1], steps[n - 1], states[n], bound);
    }
  }

  lemma QuietStep(s: State, step: Step, s': State, bound: int)
    requires Next(s, step, s') && (step.FetchPage? || step.ApplyChange?) && s.pass.Running?
    requires RowsOk(s) && CursorOk(s) && SyncSafe(s) && PassShape(s) && PassRight(s, bound)
    ensures s'.server == s.server && s'.pass.Running? && s'.pass.start == s.pass.start
    ensures RowsOk(s') && CursorOk(s') && SyncSafe(s') && PassShape(s') && PassRight(s', bound)
  {
    if step.FetchPage? {
      FetchKeeps(s, step.page, s', bound);
    } else {
      ApplyKeepsShape(s, bound);
      ApplyKeepsRight(s, bound);
    }
  }

  /** A quiet pass, full or incremental, leaves exactly the effective connections in the store. */
  lemma QuietPassIsExact(states: seq<State>, steps: seq<Step>)
    requires QuietPass(states, steps) && Inv(states[0])
    ensures states[|steps|].users == ActiveStore(states[0].server)
    ensures states[|steps|].cursor == Some(states[0].server.clock)
  {
    var n := |steps| - 1;
    var s, s' := states[n], states[|steps|];
    QuietPassIsRight(states, steps, n, 0);
    assert Next(s, steps[n], s');
    forall id | id in s.server.rows ensures Holds(s.server, s'.users, id) {
      QuietPassIsRight(states, steps, n, s.server.rows[id].version + 1);
      CollectedIsRight(s, s.server.rows[id].version + 1, id);
    }
    assert s'.users.Keys <= s.server.rows.Keys;
    assert forall id :: id in s'.users <==> id in ActiveStore(s.server);
  }

  /** From the same state, a quiet incremental pass ends in the same store and cursor as a quiet full pass. */
  lemma IncrementalRefinesFull(fullStates: seq<State>, fullSteps: seq<Step>, states: seq<State>, steps: seq<Step>)
    requires QuietPass(fullStates, fullSteps) && QuietPass(states, steps)
    requires states[0] == fullStates[0] && Inv(states[0])
    requires fullSteps[0].full && !steps[0].full
    ensures states[|steps|].users == fullStates[|fullSteps|].users
    ensures states[|steps|].cursor == fullStates[|fullSteps|].cursor
  {
    QuietPassIsExact(fullStates, fullSteps);
    QuietPassIsExact(states, steps);
  }

  // ---------------------------------------------------------------- what the writes mean

  /** The least version that is above the old one and not below the clock reading. */
  predicate NextVersion(version: int, t: int, version': int) {
    version < version' && t <= version' && (version' == version + 1 || version' == t)
  }

  /** Only the rows of the server's table change, and among them only some. */
  ghost predicate ChangesRows(s: State, s': State, some: set<Id>) {
    && s' == s.(server := s.server.(rows := s'.server.rows)) && s.server.rows.Keys <= s'.server.rows.Keys <= s.server.rows.Keys + some
    && forall id :: id in s.server.rows && id !in some ==> s'.server.rows[id] == s.server.rows[id]
  }

  lemma CreateMeans(s: State, id: Id, account: string, material: string, t: int, s': State)
    requires Next(s, Create(id, account, material, t), s')
    ensures ChangesRows(s, s', {id}) && id in s'.server.rows
    ensures var r := s'.server.rows[id];
            r.account == account && r.desired == Active && r.version == t && r.material == material && r.applied == Absent && r.appliedVersion == 0
  {
  }

  lemma SetDesiredMeans(s: State, id: Id, status: Status, t: int, s': State)
    requires Next(s, SetDesired(id, status, t), s') && id in s.server.rows && status != Absent
    ensures ChangesRows(s, s', {id})
    ensures var r, r' := s.server.rows[id], s'.server.rows[id];
            r'.desired == status && NextVersion(r.version, t, r'.version) && r' == r.(desired := r'.desired, version := r'.version)
  {
  }

  lemma DeleteNodeMeans(s: State, t: int, s': State, id: Id)
    requires Next(s, DeleteNode(t), s') && id in s.server.rows
    ensures ChangesRows(s, s', s.server.rows.Keys)
    ensures var r, r' := s.server.rows[id], s'.server.rows[id];
            && r'.desired == Deleted && r' == r.(desired := Deleted, version := r'.version)
            && (if r.desired == Deleted then r'.version == r.version else NextVersion(r.version, t, r'.version))
  {
  }

  lemma SaveConfigMeans(s: State, materials: map<Id, string>, t: int, s': State, id: Id)
    requires Next(s, SaveConfig(materials, t), s') && id in s.server.rows
    ensures ChangesRows(s, s', s.server.rows.Keys)
    ensures var r, r' := s.server.rows[id], s'.server.rows[id];
            if r.desired == Deleted then r' == r
            else NextVersion(r.version, t, r'.version) && r' == r.(version := r'.version, material := if id in materials then materials[id] else r.material)
  {
  }

  /** Finalizing marks exactly the listed connections of the account that the snapshot covers, its own version included. */
  lemma FinalizeMeans(s: State, reply: Reply, account: string, candidates: set<Id>, s': State, id: Id)
    requires Next(s, Finalize(reply, account, candidates), s') && id in s.server.rows
    ensures reply in s.replies && ChangesRows(s, s', candidates)
    ensures var r, r' := s.server.rows[id], s'.server.rows[id];
            if id in candidates && r.account == account && r.version <= reply.version
            then r'.applied == r.desired && r'.appliedVersion == r.version && r' == r.(applied := r'.applied, appliedVersion := r'.appliedVersion)
            else r' == r
  {
  }

  // ---------------------------------------------------------------- writes reach the agent

  /** After a status change, a complete quiet pass leaves the connection on the agent exactly if it is to be active there. */
  lemma StatusReachesAgent(s: State, id: Id, status: Status, t: int, states: seq<State>, steps: seq<Step>)
    requires Inv(s) && id in s.server.rows && status != Absent
    requires QuietPass(states, steps) && Next(s, SetDesired(id, status, t), states[0])
    ensures var r, users := s.server.rows[id], states[|steps|].users;
            && (id in users <==> status == Active && r.account in s.server.accounts && r.material != "")
            && (id in users ==> users[id] == r.material)
  {
    NextKeepsInv(s, SetDesired(id, status, t), states[0]);
    SetDesiredMeans(s, id, status, t, states[0]);
    QuietPassIsExact(states, steps);
  }

  lemma CreationReachesAgent(s: State, id: Id, account: string, material: string, t: int, states: seq<State>, steps: seq<Step>)
    requires Inv(s) && QuietPass(states, steps) && Next(s, Create(id, account, material, t), states[0])
    ensures var users := states[|steps|].users;
            (id in users <==> account in s.server.accounts && material != "") && (id in users ==> users[id] == material)
  {
    NextKeepsInv(s, Create(id, account, material, t), states[0]);
    CreateMeans(s, id, account, material, t, states[0]);
    QuietPassIsExact(states, steps);
  }

  lemma NodeDeletionReachesAgent(s: State, t: int, states: seq<State>, steps: seq<Step>)
    requires Inv(s) && QuietPass(states, steps) && Next(s, DeleteNode(t), states[0])
    ensures states[|steps|].users == map[]
  {
    NextKeepsInv(s, DeleteNode(t), states[0]);
    QuietPassIsExact(states, steps);
    forall id | id in ActiveStore(states[0].server) ensures false {
      DeleteNodeMeans(s, t, states[0], id);
    }
  }

  /** After a new node configuration, the agent holds the new material of every active connection. */
  lemma ConfigReachesAgent(s: State, materials: map<Id, string>, t: int, states: seq<State>, steps: seq<Step>, id: Id)
    requires Inv(s) && QuietPass(states, steps) && Next(s, SaveConfig(materials, t), states[0]) && id in s.server.rows
    ensures var r, users := s.server.rows[id], states[|steps|].users;
            var material := if id in materials then materials[id] else r.material;
            && (id in users <==> r.desired == Active && r.account in s.server.accounts && material != "")
            && (id in users ==> users[id] == material)
  {
    NextKeepsInv(s, SaveConfig(materials, t), states[0]);
    SaveConfigMeans(s, materials, t, states[0], id);
    QuietPassIsExact(states, steps);
  }

  // ---------------------------------------------------------------- account status

  /** `UpdateAccountStatus` changes which connections are effective and stamps no version. */
  function SetAccountStatus(s: State, account: string, active: bool): State {
    s.(server := s.server.(accounts := if active then s.server.accounts + {account} else s.server.accounts - {account}))
  }

  predicate LiveFor(r: Row, account: string) {
    r.account == account && r.desired == Active && r.material != ""
  }

  /** Holding or releasing an account is safe exactly when none of its live connections lies below the cursor. */
  lemma AccountStatusSafeIff(s: State, account: string, active: bool)
    requires Inv(s) && s.cursor.Some?
    requires active != (account in s.server.accounts)
    ensures SyncSafe(SetAccountStatus(s, account, active)) <==>
            forall id :: id in s.server.rows && LiveFor(s.server.rows[id], account) ==> s.cursor.value <= s.server.rows[id].version
  {
    var s' := SetAccountStatus(s, account, active);
    forall id | id in s.server.rows && s.server.rows[id].version < s.cursor.value
      ensures Holds(s.server, s.users, id)
      ensures Holds(s'.server, s'.users, id) <==> !LiveFor(s.server.rows[id], account)
    {
      assert Holds(s.server, s.users, id);
    }
  }

  /** The limit is met by the running system: after a pass, holding the account leaves its connection on the agent. */
  lemma AccountHeldUnseen() returns (states: seq<State>, steps: seq<Step>)
    ensures Run(states, steps) && Init(states[0]) && SyncSafe(states[|steps|]) && !SyncSafe(SetAccountStatus(states[|steps|], "acct", false))
  {
    states, steps := OnePass(10, None);
    SyncSafety(states, steps, |steps|);
    var s := SetAccountStatus(states[|steps|], "acct", false);
    assert s.server.rows["a"].version < 10 && !Holds(s.server, s.users, "a");
  }

  // ---------------------------------------------------------------- late commits

  /**
   * A status change whose clock reading t is older than a manifest start: it is safe exactly when
   * its version still reaches the cursor or it does not change what is effective.
   */
  lemma LateCommitSafeIff(s: State, id: Id, status: Status, t: int)
    requires Inv(s) && s.cursor.Some? && id in s.server.rows && status != Absent
    ensures var s' := WithRows(s, UpdateDesiredStatus(s.server.rows, id, status, t));
            SyncSafe(s') <==>
            || s.cursor.value <= Bump(s.server.rows[id].version, t)
            || Effective(s.server.rows[id], s.server.accounts) == Effective(s'.server.rows[id], s.server.accounts)
  {
    var s' := WithRows(s, UpdateDesiredStatus(s.server.rows, id, status, t));
    forall k | k in s.server.rows && k != id && s.server.rows[k].version < s.cursor.value
      ensures Holds(s'.server, s'.users, k)
    {
      assert Holds(s.server, s.users, k);
    }
    if Bump(s.server.rows[id].version, t) < s.cursor.value {
      assert Holds(s.server, s.users, id);
    }
  }

  /** A deletion stamped at 7 that commits after a pass has started at 10 is never seen by an incremental pass. */
  lemma LateCommitUnseen() returns (states: seq<State>, steps: seq<Step>)
    ensures Run(states, steps) && Init(states[0]) && SyncSafe(states[|steps|])
    ensures var s := states[|steps|]; !SyncSafe(WithRows(s, UpdateDesiredStatus(s.server.rows, "a", Deleted, 7)))
  {
    states, steps := OnePass(10, None);
    SyncSafety(states, steps, |steps|);
    var s := states[|steps|];
    var s' := WithRows(s, UpdateDesiredStatus(s.server.rows, "a", Deleted, 7));
    assert s'.server.rows["a"].version == 7 && !Holds(s'.server, s'.users, "a");
  }

  // ---------------------------------------------------------------- finalization

  /** Every connection that finalizing snapshot v would mark applied is one the agent holds as desired. */
  ghost predicate FinalizeIsRight(s: State, account: string, v: int, candidates: set<Id>) {
    forall id :: id in s.server.rows && id in candidates && s.server.rows[id].account == account && s.server.rows[id].version <= v ==>
      Holds(s.server, s.users, id)
  }

  /** Finalizing snapshot v is right in every state with cursor c exactly when v lies below the cursor. */
  lemma FinalizeRightIff(c: int, v: int)
    requires 0 < c
    ensures (forall s: State, account, candidates :: Inv(s) && s.cursor == Some(c) ==> FinalizeIsRight(s, account, v, candidates))
            <==> v < c
  {
    if v < c {
      forall s: State, account, candidates | Inv(s) && s.cursor == Some(c) ensures FinalizeIsRight(s, account, v, candidates) {
      }
    } else {
      var row := Row("acct", Active, v, Absent, 0, "key");
      var s := State(Server(map["a" := row], {"acct"}, v), c, map[], Some(c), Idle, {});
      assert Inv(s);
      assert !FinalizeIsRight(s, "acct", v, {"a"}) by {
        assert "a" in s.server.rows && s.server.rows["a"].version <= v && !Holds(s.server, s.users, "a");
      }
    }
  }

  /**
   * Over every run, a finalization whose snapshot covers the version of a listed connection, and whose pass started
   * after it, leaves the connection marked applied in that version, and the agent holds it as desired.
   */
  lemma FinalizedIsApplied(states: seq<State>, steps: seq<Step>, n: nat, id: Id)
    requires Run(states, steps) && Init(states[0]) && n < |steps| && steps[n].Finalize? && id in states[n].server.rows && id in steps[n].candidates
    requires var r := states[n].server.rows[id];
             r.account == steps[n].account && r.version <= steps[n].reply.version && r.version < steps[n].reply.start
    ensures id in states[n + 1].server.rows
    ensures var r := states[n + 1].server.rows[id];
            && r.applied == r.desired == states[n].server.rows[id].desired && r.appliedVersion == r.version == states[n].server.rows[id].version
            && Holds(states[n + 1].server, states[n + 1].users, id)
  {
    assert Next(states[n], steps[n], states[n + 1]);
    FinalizeMeans(states[n], steps[n].reply, steps[n].account, steps[n].candidates, states[n + 1], id);
    RunKeepsInv(states, steps, n);
    SyncSafety(states, steps, n);
  }

  /**
   * A connection that is refreshed under its own version by a quiet pass that starts later is answered for that version,
   * and the finalization of that answer leaves it marked applied and held as desired.
   */
  lemma RefreshEndsApplied(states: seq<State>, steps: seq<Step>, id: Id, candidates: set<Id>, s': State)
    requires QuietPass(states, steps) && Inv(states[0]) && id in states[0].server.rows && id in candidates
    requires var r, sv := states[0].server.rows[id], states[0].server;
             && r.version < sv.clock && steps[0].refresh == Some(r.version) && steps[|steps| - 1].answer
             && s' == WithRows(states[|steps|], FinalizeConnections(states[|steps|].server.rows, r.account, r.version, candidates))
    ensures var r, reply := states[0].server.rows[id], Reply(states[0].server.rows[id].version, states[0].server.clock);
            && Next(states[|steps|], Finalize(reply, r.account, candidates), s') && id in s'.server.rows
            && s'.server.rows[id] == r.(applied := r.desired, appliedVersion := r.version) && Holds(s'.server, s'.users, id)
  {
    var n, r := |steps| - 1, states[0].server.rows[id];
    QuietPassIsRight(states, steps, n, 0);
    QuietPassRefresh(states, steps, n);
    assert Next(states[n], steps[n], states[n + 1]);
    FinalizeMeans(states[|steps|], Reply(r.version, states[0].server.clock), r.account, candidates, s', id);
    QuietPassIsExact(states, steps);
  }

  lemma {:induction false} QuietPassRefresh(states: seq<State>, steps: seq<Step>, n: nat)
    requires QuietPass(states, steps) && 0 < n < |steps|
    ensures states[n].pass.Running? && states[n].pass.refresh == steps[0].refresh
  {
    assert Next(states[n - 1], steps[n - 1], states[n]);
    if n > 1 { QuietPassRefresh(states, steps, n - 1); }
  }

  /**
   * The limit is met by the running system. Two edits in one millisecond put the snapshot version
   * past the manifest start of the refresh that serves it; a connection created in the same
   * millisecond, after that pass, is then marked applied although the agent has never seen it.
   */
  lemma UntimelyRefresh() returns (states: seq<State>, steps: seq<Step>)
    ensures Run(states, steps) && Init(states[0]) && steps != []
    ensures !AppliedHolds(states[|steps|]) && !Timely(steps[|steps| - 1]) && AllTimely(steps, |steps| - 1)
  {
    states, steps := OnePass(5, Some(6));
    var s := states[|steps|];
    var s1 := WithRows(s, CreateConnection(s.server.rows, "b", "acct", "kb", 5));
    var s2 := WithRows(s1, FinalizeConnections(s1.server.rows, "acct", 6, {"b"}));
    var create, finalize := Create("b", "acct", "kb", 5), Finalize(Reply(6, 5), "acct", {"b"});
    RunExtends(states, steps, create, s1);
    RunExtends(states + [s1], steps + [create], finalize, s2);
    states, steps := states + [s1] + [s2], steps + [create] + [finalize];
    assert s2.server.rows["b"].appliedVersion == s2.server.rows["b"].version && !Holds(s2.server, s2.users, "b");
  }

  /** A connection is created and activated at 5, and a full pass that starts at `start` brings it to the agent. */
  lemma OnePass(start: int, refresh: Option<int>) returns (states: seq<State>, steps: seq<Step>)
    requires 5 <= start
    ensures Run(states, steps) && Init(states[0]) && AllTimely(steps, |steps|)
    ensures var s := states[|steps|];
            && s.lastStart == start == s.server.clock && s.cursor == Some(start) && s.server.accounts == {"acct"}
            && s.server.rows == map["a" := Row("acct", Active, 6, Absent, 0, "ka")] && s.users == map["a" := "ka"]
            && (refresh.Some? ==> Reply(refresh.value, start) in s.replies)
  {
    var s0 := State(Server(map[], {"acct"}, 5), 0, map[], None, Idle, {});
    var s1 := WithRows(s0, CreateConnection(s0.server.rows, "a", "acct", "ka", 5));
    var s2 := WithRows(s1, UpdateDesiredStatus(s1.server.rows, "a", Active, 5));
    var s3 := s2.(server := s2.server.(clock := start));
    var s4 := BeginState(s3, true, 100, refresh);
    var change := Change("a", Upsert, 6, "ka");
    var s5 := s4.(pass := s4.pass.(pending := [change], more := false));
    var s6 := ApplyState(s5);
    assert s4.server.rows["a"] == Row("acct", Active, 6, Absent, 0, "ka");
    FetchOfOne(s4, change);
    states := [s0, s1, s2, s3, s4, s5, s6, FinishState(s6, true)];
    steps := [Create("a", "acct", "ka", 5), SetDesired("a", Active, 5), Tick(start), Begin(true, 100, refresh), FetchPage([change]),
              ApplyChange, FinishPass(true)];
  }

  /** The page of a server with one effective connection, on a full pass that is just starting. */
  lemma FetchOfOne(s: State, change: Change)
    requires s.pass.Running? && s.pass.full && s.pass.from == "" && s.pass.pending == [] && s.pass.more && 1 < s.pass.pageSize
    requires s.server.rows.Keys == {change.id} && Effective(s.server.rows[change.id], s.server.accounts)
    requires change == ChangeOf(StoredOf(change.id, s.server.rows[change.id], s.server.accounts))
    ensures Next(s, FetchPage([change]), s.(pass := s.pass.(pending := [change], more := false)))
  {
    assert HasId([change], change.id) by { assert [change][0].id == change.id; }
  }
}
