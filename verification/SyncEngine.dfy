/**
 * The agent's `Engine.Run` and the server's manifest query as they run: loops over mutable
 * state, with server writes and finalizations allowed between any two database operations and
 * failures allowed at every call. Each run of the loop is shown to be a run of the machine.
 */
module SyncEngine {
  import opened Ids
  import opened Manifest
  import opened SyncMachine
  import opened Wrappers

  predicate ServerStep(step: Step) {
    step.Tick? || step.Create? || step.SetDesired? || step.DeleteNode? || step.SaveConfig? || step.Finalize?
  }

  // ---------------------------------------------------------------- whole passes in a history

  /** What happens between the beginning and the end of a pass. */
  predicate PassStep(step: Step) {
    ServerStep(step) || step.FetchPage? || step.ApplyChange?
  }

  /** The number of pages that the agent has got. */
  ghost function Fetches(steps: seq<Step>): nat {
    if steps == [] then 0 else Fetches(steps[..|steps| - 1]) + if steps[|steps| - 1].FetchPage? then 1 else 0
  }

  /** From the n-th step on the history is one pass, so far. */
  ghost predicate Passes(steps: seq<Step>, n: nat, wanted: bool, pageSize: int, refresh: Option<int>) {
    n < |steps| && steps[n] == Begin(wanted, pageSize, refresh) && forall i :: n < i < |steps| ==> PassStep(steps[i])
  }

  /** The same, and it has ended. */
  ghost predicate WholePass(steps: seq<Step>, n: nat, wanted: bool, pageSize: int, refresh: Option<int>, end: Step) {
    |steps| > 0 && steps[|steps| - 1] == end && Passes(steps[..|steps| - 1], n, wanted, pageSize, refresh)
  }

  /** Only steps of a pass have followed, with so many pages. */
  ghost predicate Goes(before: seq<Step>, after: seq<Step>, pages: int) {
    before <= after && (forall i :: |before| <= i < |after| ==> PassStep(after[i])) && Fetches(after) == Fetches(before) + pages
  }

  lemma PassGoesOn(before: seq<Step>, after: seq<Step>, pages: int, n: nat, wanted: bool, pageSize: int, refresh: Option<int>)
    requires Passes(before, n, wanted, pageSize, refresh) && Goes(before, after, pages)
    ensures Passes(after, n, wanted, pageSize, refresh)
  {
    forall i | n < i < |after| ensures PassStep(after[i]) {
      if i < |before| { assert after[i] == before[i]; }
    }
  }

  lemma {:induction false} NoFetches(before: seq<Step>, after: seq<Step>)
    requires before <= after && forall i :: |before| <= i < |after| ==> ServerStep(after[i])
    ensures Fetches(after) == Fetches(before)
    decreases |after|
  {
    if |before| < |after| {
      NoFetches(before, after[..|after| - 1]);
    } else {
      assert before == after;
    }
  }

  // ---------------------------------------------------------------- the manifest query

  /** The listing a query reads: every connection above the page cursor once, in any order. */
  ghost predicate Lists(credentials: seq<Stored>, sv: Server, from: Id) {
    && DistinctIds(credentials)
    && (forall i :: 0 <= i < |credentials| ==>
          && credentials[i].id in sv.rows && Above(from, credentials[i].id)
          && credentials[i] == StoredOf(credentials[i].id, sv.rows[credentials[i].id], sv.accounts))
    && (forall id :: id in sv.rows && Above(from, id) ==> StoredOf(id, sv.rows[id], sv.accounts) in credentials)
  }

  /** The page cut from such a listing is the page of the table. */
  lemma ListedPageIsPage(sv: Server, credentials: seq<Stored>, q: Query)
    requires Lists(credentials, sv, q.from) && NamedIds(credentials) && ValidPageSize(q.pageSize)
    ensures IsPage(sv, q, PageOf(credentials, q))
  {
    var listing, page := Select(SortById(credentials), q), PageOf(credentials, q);
    ListingIsExact(credentials, q);
    forall i | 0 <= i < |page|
      ensures page[i].id in sv.rows
      ensures Selected(StoredOf(page[i].id, sv.rows[page[i].id], sv.accounts), q)
      ensures page[i] == ChangeOf(StoredOf(page[i].id, sv.rows[page[i].id], sv.accounts))
    {
      assert page[i] in listing;
      var c :| c in credentials && ChangeOf(c) == page[i];
    }
    forall id | id in sv.rows && Selected(StoredOf(id, sv.rows[id], sv.accounts), q)
      ensures HasId(page, id) || (|page| == q.pageSize && AllBelow(page, id))
    {
      var c := StoredOf(id, sv.rows[id], sv.accounts);
      assert c in credentials && ChangeOf(c) in listing;
      var k :| 0 <= k < |listing| && listing[k] == ChangeOf(c);
      if k < |page| {
        assert page[k].id == id;
      } else {
        forall i | 0 <= i < |page| ensures Less(page[i].id, id) { assert Less(listing[i].id, listing[k].id); }
      }
    }
  }

  datatype Outcome = Done(start: int) | Failed

  class Node {
    var rows: map<Id, Row>
    const accounts: set<string>
    var clock: int
    var users: map<Id, string>
    var cursor: Option<int>
    var lastStart: int
    var replies: set<Reply>
    // The machine run that the calls so far amount to.
    ghost var states: seq<State>
    ghost var steps: seq<Step>

    constructor (accounts: set<string>, clock: int)
      requires 0 < clock
      ensures Valid(Idle) && fresh(this) && Init(states[0]) && steps == []
    {
      this.rows, this.accounts, this.clock := map[], accounts, clock;
      this.users, this.cursor := map[], None;
      this.lastStart, this.replies := 0, {};
      this.states := [State(Server(map[], accounts, clock), 0, map[], None, Idle, {})];
      this.steps := [];
    }

    ghost function Abstract(p: Pass): State
      reads this
    {
      State(Server(rows, accounts, clock), lastStart, users, cursor, p, replies)
    }

    /** The history is a run of the machine from the empty system to the present state. */
    ghost predicate Valid(p: Pass)
      reads this
    {
      Run(states, steps) && Init(states[0]) && states[|steps|] == Abstract(p)
    }

    ghost method Record(step: Step, p: Pass)
      requires Run(states, steps) && Init(states[0]) && Next(states[|steps|], step, Abstract(p))
      modifies this`states, this`steps
      ensures Valid(p) && steps == old(steps) + [step] && old(states) <= states
      ensures Fetches(steps) == Fetches(old(steps)) + if step.FetchPage? then 1 else 0
    {
      RunExtends(states, steps, step, Abstract(p));
      assert (steps + [step])[..|steps|] == steps;
      states, steps := states + [Abstract(p)], steps + [step];
    }

    /** Anything the server may do while the agent is busy: time passes, rows are written, results are finalized. */
    method Interfere(ghost p: Pass)
      requires Valid(p)
      modifies this`rows, this`clock, this`states, this`steps
      ensures Valid(p) && old(states) <= states && Goes(old(steps), steps, 0)
    {
      var count: int := *;
      if count < 0 { count := 0; }
      for i := 0 to count
        invariant Valid(p) && old(steps) <= steps && old(states) <= states
        invariant forall k :: |old(steps)| <= k < |steps| ==> ServerStep(steps[k])
      {
        var step: Step := *;
        ServerWrites(step, p);
      }
      NoFetches(old(steps), steps);
    }

    /** A statement of the server, if it can be that one. */
    method ServerWrites(step: Step, ghost p: Pass)
      requires Valid(p)
      modifies this`rows, this`clock, this`states, this`steps
      ensures Valid(p) && old(states) <= states && (steps == old(steps) || (steps == old(steps) + [step] && ServerStep(step)))
    {
      if step.Tick? {
        if clock <= step.to {
          clock := step.to;
          Record(step, p);
        }
      } else if step.Finalize? {
        if step.reply in replies {
          rows := FinalizeConnections(rows, step.account, step.reply.version, step.candidates);
          Record(step, p);
        }
      } else if (step.Create? || step.SetDesired? || step.DeleteNode? || step.SaveConfig?) && 0 < step.t && lastStart <= step.t <= clock {
        match step
        case Create(id, account, material, t) =>
          if id != "" && id !in rows {
            rows := CreateConnection(rows, id, account, material, t);
            Record(step, p);
          }
        case SetDesired(id, status, t) =>
          rows := UpdateDesiredStatus(rows, id, status, t);
          Record(step, p);
        case DeleteNode(t) =>
          rows := SoftDeleteNode(rows, t);
          Record(step, p);
        case SaveConfig(materials, t) =>
          rows := SaveNodeConfig(rows, materials, t);
          Record(step, p);
      }
    }

    /** The SQL listing of one node's connections above a page cursor. */
    method ListStoredConnections(from: Id) returns (credentials: seq<Stored>)
      ensures Lists(credentials, Server(rows, accounts, clock), from)
    {
      credentials := [];
      var todo := rows.Keys;
      while todo != {}
        invariant todo <= rows.Keys
        invariant DistinctIds(credentials)
        invariant forall i :: 0 <= i < |credentials| ==>
                    && credentials[i].id in rows && credentials[i].id !in todo && Above(from, credentials[i].id)
                    && credentials[i] == StoredOf(credentials[i].id, rows[credentials[i].id], accounts)
        invariant forall id :: id in rows && id !in todo && Above(from, id) ==> StoredOf(id, rows[id], accounts) in credentials
        decreases todo
      {
        var id :| id in todo;
        todo := todo - {id};
        if Above(from, id) {
          credentials := credentials + [StoredOf(id, rows[id], accounts)];
        }
      }
    }

    /** What every run of the machine establishes. */
    lemma WhatHolds()
      requires Valid(Idle)
      ensures SyncSafe(Abstract(Idle)) && (AllTimely(steps, |steps|) ==> AppliedHolds(Abstract(Idle)))
    {
      SyncSafety(states, steps, |steps|);
      if AllTimely(steps, |steps|) { AppliedMeansApplied(states, steps, |steps|); }
    }

    lemma RowsAreNamed(p: Pass)
      requires Valid(p)
      ensures "" !in rows
    {
      RunKeepsInv(states, steps, |steps|);
    }

    /** Whatever ends a pass early leaves the cursor and drops what the pass collected. */
    ghost method Abandon(p: Pass)
      requires Valid(p)
      modifies this`states, this`steps
      ensures Valid(Idle) && old(states) <= states && steps == if p.Running? then old(steps) + [AbortPass] else old(steps)
      ensures Fetches(steps) == Fetches(old(steps))
      ensures SyncSafe(Abstract(Idle)) && (AllTimely(steps, |steps|) ==> AppliedHolds(Abstract(Idle)))
    {
      if p.Running? { Record(AbortPass, Idle); }
      WhatHolds();
    }

    /** `ApplySyncChange`: an incremental pass writes through, a full pass collects. */
    method ApplySyncChange(change: Change, full: bool, keep: map<Id, string>, ghost p: Pass)
      returns (keep': map<Id, string>, ghost p': Pass)
      requires Valid(p) && p.Running? && p.pending != [] && p.pending[0] == change && p.full == full && p.keep == keep
      modifies this`users, this`states, this`steps
      ensures Valid(p') && old(states) <= states && Goes(old(steps), steps, 0)
      ensures p' == p.(from := change.id, pending := p.pending[1..], keep := keep')
    {
      keep' := keep;
      if change.op == Upsert {
        if full {
          keep' := keep[change.id := change.material];
        } else {
          users := users[change.id := change.material];
        }
      } else if !full {
        users := users - {change.id};
      }
      p' := p.(from := change.id, pending := p.pending[1..], keep := keep');
      Record(ApplyChange, p');
    }

    /** The clock reading of a first page starts the pass. */
    method StartManifest(want: bool, pageSize: int, refresh: Option<int>) returns (ghost p: Pass)
      requires Valid(Idle) && ValidPageSize(pageSize)
      modifies this`lastStart, this`states, this`steps
      ensures Valid(p) && old(states) <= states && steps == old(steps) + [Begin(want, pageSize, refresh)]
      ensures Fetches(steps) == Fetches(old(steps))
      ensures p == Running(PassFull(want, cursor), AgentSince(want, cursor), pageSize, clock, "", [], true, map[], refresh)
    {
      lastStart := clock;
      p := Running(PassFull(want, cursor), AgentSince(want, cursor), pageSize, clock, "", [], true, map[], refresh);
      Record(Begin(want, pageSize, refresh), p);
    }

    /** The server side of a page request, after its clock reading; writes may still come before the listing. */
    method ListPage(q: Query, start: int, ghost p: Pass) returns (r: Checked<Response>, ghost p': Pass)
      requires Valid(p) && p.Running? && p.pending == [] && p.more && ValidPageSize(q.pageSize) && QueryOf(p) == q
      modifies this`rows, this`clock, this`states, this`steps
      ensures Valid(p') && old(states) <= states && Goes(old(steps), steps, 1)
      ensures r.Passed? && ValidResponse(r.value.changes, q.pageSize) && r.value.full == q.full && r.value.start == start
      ensures p' == p.(pending := r.value.changes, more := |r.value.changes| == q.pageSize)
    {
      Interfere(p);
      var credentials := ListStoredConnections(q.from);
      r := BuildResponse(credentials, q, start);
      RowsAreNamed(p);
      ListedPageIsPage(Server(rows, accounts, clock), credentials, q);
      p' := p.(pending := r.value.changes, more := |r.value.changes| == q.pageSize);
      Record(FetchPage(r.value.changes), p');
    }

    /** The changes of one page, one database write each; any of them may fail, unless the database is `sound`. */
    method ApplyPage(changes: seq<Change>, full: bool, from0: Id, keep0: map<Id, string>, sound: bool, ghost p: Pass)
      returns (ok: bool, from: Id, keep: map<Id, string>, ghost p': Pass)
      requires Valid(p) && p.Running? && p.pending == changes && p.full == full && p.from == from0 && p.keep == keep0
      modifies this`rows, this`clock, this`users, this`states, this`steps
      ensures Valid(p') && old(states) <= states && p'.Running? && Goes(old(steps), steps, 0)
      ensures sound ==> ok
      ensures ok ==> p' == p.(from := from, pending := [], keep := keep)
    {
      ok, from, keep, p' := true, from0, keep0, p;
      for i := 0 to |changes|
        invariant ok && Valid(p') && old(states) <= states && Goes(old(steps), steps, 0)
        invariant p' == p.(from := from, pending := changes[i..], keep := keep)
      {
        var refused: bool := *;
        if refused && !sound {
          return false, from, keep, p';
        }
        keep, p' := ApplyNext(changes[i], full, keep, p');
        from := changes[i].id;
      }
    }

    /** One change, and whatever the server does before the next one. */
    method ApplyNext(change: Change, full: bool, keep: map<Id, string>, ghost p: Pass) returns (keep': map<Id, string>, ghost p': Pass)
      requires Valid(p) && p.Running? && p.pending != [] && p.pending[0] == change && p.full == full && p.keep == keep
      modifies this`rows, this`clock, this`users, this`states, this`steps
      ensures Valid(p') && old(states) <= states && Goes(old(steps), steps, 0)
      ensures p' == p.(from := change.id, pending := p.pending[1..], keep := keep')
    {
      keep', p' := ApplySyncChange(change, full, keep, p);
      Interfere(p');
    }

    /** One turn of the loop of `Engine.Run`: request a page, check it, adopt its mode if it is the first, apply it. */
    method RunPage(wanted: bool, full: bool, since: int, pageSize: int, refresh: Option<int>,
                   first: bool, from: Id, keep: map<Id, string>, passCursor: int, sound: bool, ghost n: nat, ghost p: Pass)
      returns (ok: bool, full': bool, from': Id, keep': map<Id, string>, passCursor': int, more: bool, ghost p': Pass)
      requires Valid(p) && ValidPageSize(pageSize)
      requires first ==> p == Idle && from == "" && keep == map[]
                         && full == AgentFull(wanted, cursor) && since == AgentSince(wanted, cursor)
      requires if first then n == |steps| else Passes(steps, n, wanted, pageSize, refresh)
      requires !first ==> full == ServerFull(full, since)
                          && p == Running(full, since, pageSize, passCursor, from, [], true, keep, refresh)
      modifies this`rows, this`clock, this`users, this`lastStart, this`states, this`steps
      ensures Valid(p') && old(states) <= states && p'.Running?
      ensures Passes(steps, n, wanted, pageSize, refresh) && Fetches(steps) == Fetches(old(steps)) + 1 && (sound ==> ok)
      ensures ok ==> full' == ServerFull(full', since)
                     && p' == Running(full', since, pageSize, passCursor', from', [], more, keep', refresh)
    {
      full', from', keep', passCursor', more, p' := full, from, keep, passCursor, true, p;
      var start := clock;
      if first {
        p' := StartManifest(wanted, pageSize, refresh);
      }
      ghost var begun := steps;
      var response;
      response, p' := ListPage(Query(ServerFull(full, since), since, from, pageSize), start, p');
      if first {
        passCursor' := response.value.start;
        if response.value.full { full' := true; }
      }
      ok, from', keep', p' := ApplyPage(response.value.changes, full', from, keep, sound, p');
      more := |response.value.changes| == pageSize;
      PassGoesOn(begun, steps, 1, n, wanted, pageSize, refresh);
    }

    /** The loop of `Engine.Run`: page after page, until one is not full or the context expires. */
    method RunPages(wanted: bool, full0: bool, since: int, pageSize: int, refresh: Option<int>, calls: nat, sound: bool)
      returns (ok: bool, full: bool, keep: map<Id, string>, passCursor: int, ghost p: Pass)
      requires Valid(Idle) && ValidPageSize(pageSize) && full0 == AgentFull(wanted, cursor) && since == AgentSince(wanted, cursor)
      modifies this`rows, this`clock, this`users, this`lastStart, this`states, this`steps
      ensures Valid(p) && old(states) <= states
      ensures !ok && sound ==> Fetches(steps) == Fetches(old(steps)) + calls
      ensures ok ==> Passes(steps, |old(steps)|, wanted, pageSize, refresh)
      ensures ok ==> p.Running? && p.pending == [] && !p.more && p.full == full && p.start == passCursor && p.keep == keep && p.refresh == refresh
    {
      var from, first, more, left := "", true, true, calls;
      ok, full, keep, passCursor, p := true, full0, map[], 0, Idle;
      while more
        invariant Valid(p) && old(states) <= states && 0 <= left <= calls && Fetches(steps) == Fetches(old(steps)) + calls - left
        invariant ok && if first then steps == old(steps) else Passes(steps, |old(steps)|, wanted, pageSize, refresh)
        invariant first ==> p == Idle && from == "" && keep == map[] && more
                            && full == AgentFull(wanted, cursor) && since == AgentSince(wanted, cursor)
        invariant !first ==> full == ServerFull(full, since)
                             && p == Running(full, since, pageSize, passCursor, from, [], more, keep, refresh)
        decreases more, left
      {
        if left == 0 {
          return false, full, keep, passCursor, p;
        }
        left := left - 1;
        ok, full, from, keep, passCursor, more, p :=
          RunPage(wanted, full, since, pageSize, refresh, first, from, keep, passCursor, sound, |old(steps)|, p);
        first := false;
        if !ok {
          return;
        }
      }
    }

    /**
     * `Engine.Run`. `calls` is the number of page requests before the context expires, and a `sound` database
     * refuses nothing. Whatever the server does meanwhile and wherever the pass fails, the history stays a run of
     * the machine, so the agent stays right about every connection below its cursor. A pass that is done is one
     * whole pass of the machine, and only a context that expires keeps a sound one from being done.
     */
    method RunPass(wanted: bool, pageSizeSetting: int, refresh: Option<int>, calls: nat, sound: bool) returns (r: Outcome)
      requires Valid(Idle)
      modifies this
      ensures Valid(Idle) && old(states) <= states
      ensures SyncSafe(Abstract(Idle)) && (AllTimely(steps, |steps|) ==> AppliedHolds(Abstract(Idle)))
      ensures pageSizeSetting < 0 || pageSizeSetting > 1000 ==> r == Failed && unchanged(this)
      ensures r.Done? ==> WholePass(steps, |old(steps)|, wanted, NormalizePageSize(pageSizeSetting), refresh, FinishPass(true))
      ensures sound && 0 <= pageSizeSetting <= 1000 && r.Failed? ==> Fetches(steps) == Fetches(old(steps)) + calls
      ensures r.Done? ==> cursor == Some(r.start)
      ensures r.Done? && refresh.Some? ==> Reply(refresh.value, r.start) in replies
    {
      var pageSize := NormalizePageSize(pageSizeSetting);
      if !ValidPageSize(pageSize) {
        WhatHolds();
        return Failed;
      }
      var full, since := wanted, 0;
      if !full {
        if cursor.Some? { since := cursor.value; } else { full := true; }
      }
      var ok, keep, passCursor;
      ghost var p;
      ok, full, keep, passCursor, p := RunPages(wanted, full, since, pageSize, refresh, calls, sound);
      if !ok {
        Abandon(p);
        return Failed;
      }
      ghost var passed := steps;
      r := FinishSyncPass(full, passCursor, keep, refresh, sound, p);
      assert r.Done? ==> steps[..|steps| - 1] == passed;
    }

    /** `FinishSyncPass` and the cursor write; removing credentials from the runtime may fail in between. */
    method FinishSyncPass(full: bool, passCursor: int, keep: map<Id, string>, refresh: Option<int>, sound: bool, ghost p: Pass) returns (r: Outcome)
      requires Valid(p) && p.Running? && p.pending == [] && !p.more
      requires p.full == full && p.start == passCursor && p.keep == keep && p.refresh == refresh
      modifies this`users, this`cursor, this`replies, this`states, this`steps
      ensures Valid(Idle) && old(states) <= states && (sound ==> r.Done?)
      ensures r.Done? ==> cursor == Some(passCursor) && r.start == passCursor && steps == old(steps) + [FinishPass(true)]
      ensures r.Done? && refresh.Some? ==> Reply(refresh.value, passCursor) in replies
      ensures SyncSafe(Abstract(Idle)) && (AllTimely(steps, |steps|) ==> AppliedHolds(Abstract(Idle)))
      ensures full ==> users == keep && cursor == Some(passCursor)
      ensures !full ==> users == old(users) && (r.Failed? ==> cursor == old(cursor))
    {
      var removed: bool := *;
      removed := removed || sound;
      if full {
        users, cursor := keep, Some(passCursor);
        if removed && refresh.Some? { replies := replies + {Reply(refresh.value, passCursor)}; }
        Record(FinishPass(removed), Idle);
        WhatHolds();
        return if removed then Done(passCursor) else Failed;
      }
      if !removed {
        Abandon(p);
        return Failed;
      }
      cursor := Some(passCursor);
      if refresh.Some? { replies := replies + {Reply(refresh.value, passCursor)}; }
      Record(FinishPass(true), Idle);
      WhatHolds();
      return Done(passCursor);
    }
  }
}
