/**
 * Delivery of Hysteria settings: edits compare and swap on the version, messages carry only the
 * version, the command carries the settings of the moment it is sent, and a result is recorded only
 * for the version that is still the desired one.
 */
module HysteriaSettings {
  import opened Ids
  import opened Numbers
  import opened Wrappers

  type Settings = string

  /** The configuration row: desired version and settings, the applied version, and the last error. */
  datatype Row = Row(version: int, settings: Settings, applied: int, error: string)

  /**
   * `UpdateHysteria2NodeConfig`: an edit of a stale version is refused, and one that has not rendered a
   * configuration for every live connection; an accepted one gets a later version.
   */
  predicate Accepted(row: Row, live: nat, expected: int, rendered: nat) {
    row.version == expected && live == rendered
  }

  function Edited(row: Row, settings: Settings, now: int): Row {
    Row(Max(now, row.version + 1), settings, row.applied, "")
  }

  /** `SetHysteria2ConfigResult`. */
  function Recorded(row: Row, version: int, error: string): Row {
    if row.version != version then row
    else if error != "" then row.(error := error)
    else row.(applied := version, error := "")
  }

  datatype Command = Command(message: Id, version: int, settings: Settings)

  datatype Reply = Reply(correlation: Id, desired: int, applied: int, ok: bool)

  /** A settled delivery attempt. */
  predicate Confirms(reply: Reply, message: Id, version: int) {
    reply.correlation == message && reply.desired == version && reply.ok && reply.applied == version
  }

  datatype State = State(
    row: Row, live: nat, queued: map<Id, int>,    // server databases
    sent: set<Command>, replies: set<Reply>,      // network
    confirmed: set<(int, Settings)>,              // history: what the agent said it had applied
    written: map<int, Settings>)                  // history: the settings of every version

  datatype Step =
    | Save(expected: int, rendered: nat, settings: Settings, now: int)
    | Connections(live: nat)
    | Enqueue(message: Id)
    | Send(message: Id)
    | AgentApplies(command: Command)
    | AgentFails(command: Command, applied: int)
    | RecordApplied(message: Id, reply: Reply)
    | RecordFailed(message: Id, error: string)

  predicate Enabled(s: State, step: Step) {
    match step
    case Save(_, _, _, _) => true
    case Connections(_) => true
    case Enqueue(message) => message !in s.queued
    case Send(message) => message in s.queued && s.queued[message] == s.row.version
    case AgentApplies(command) => command in s.sent
    case AgentFails(command, _) => command in s.sent
    case RecordApplied(message, reply) => message in s.queued && reply in s.replies && Confirms(reply, message, s.queued[message])
    case RecordFailed(message, error) => message in s.queued && error != ""
  }

  function After(s: State, step: Step): State
    requires Enabled(s, step)
  {
    match step
    case Save(expected, rendered, settings, now) =>
      if !Accepted(s.row, s.live, expected, rendered) then s
      else var row := Edited(s.row, settings, now); s.(row := row, written := s.written[row.version := settings])
    case Connections(live) => s.(live := live)
    case Enqueue(message) => s.(queued := s.queued[message := s.row.version])
    case Send(message) => s.(sent := s.sent + {Command(message, s.row.version, s.row.settings)})
    case AgentApplies(c) =>
      s.(replies := s.replies + {Reply(c.message, c.version, c.version, true)}, confirmed := s.confirmed + {(c.version, c.settings)})
    case AgentFails(c, applied) => s.(replies := s.replies + {Reply(c.message, c.version, applied, false)})
    case RecordApplied(message, _) => s.(row := Recorded(s.row, s.queued[message], ""))
    case RecordFailed(message, error) => s.(row := Recorded(s.row, s.queued[message], error))
  }

  ghost predicate Run(states: seq<State>, steps: seq<Step>) {
    && |states| == |steps| + 1
    && forall i :: 0 <= i < |steps| ==> Enabled(states[i], steps[i]) && states[i + 1] == After(states[i], steps[i])
  }

  ghost predicate Init(s: State) {
    && s.row.applied < s.row.version && s.queued == map[] && s.sent == {} && s.replies == {} && s.confirmed == {}
    && s.written == map[s.row.version := s.row.settings]
  }

  /** Versions are never reused, and what travels under a version are the settings written under it. */
  ghost predicate VersionsOk(s: State) {
    && s.row.version in s.written && s.written[s.row.version] == s.row.settings
    && (forall v :: v in s.written ==> v <= s.row.version)
    && (forall m :: m in s.queued ==> s.queued[m] in s.written)
    && (forall c :: c in s.sent ==> c.version in s.written && s.written[c.version] == c.settings)
  }

  ghost predicate RepliesOk(s: State) {
    forall r :: r in s.replies && r.ok ==> r.desired in s.written && (r.desired, s.written[r.desired]) in s.confirmed
  }

  /** Applied means applied: never ahead, and level only with settings that the agent has confirmed. */
  ghost predicate AppliedOk(s: State) {
    s.row.applied <= s.row.version && (s.row.applied == s.row.version ==> (s.row.version, s.row.settings) in s.confirmed)
  }

  ghost predicate Inv(s: State) {
    VersionsOk(s) && RepliesOk(s) && AppliedOk(s)
  }

  lemma StepKeepsInv(s: State, step: Step)
    requires Inv(s) && Enabled(s, step)
    ensures Inv(After(s, step)) && s.row.applied <= After(s, step).row.applied && s.row.version <= After(s, step).row.version
  {
    var s' := After(s, step);
    assert forall v :: v in s.written ==> v in s'.written && s'.written[v] == s.written[v];
  }

  lemma {:induction false} RunKeepsInv(states: seq<State>, steps: seq<Step>, n: nat)
    requires Run(states, steps) && Init(states[0]) && n <= |steps|
    ensures Inv(states[n])
  {
    if n > 0 {
      RunKeepsInv(states, steps, n - 1);
      assert Enabled(states[n - 1], steps[n - 1]);
      StepKeepsInv(states[n - 1], steps[n - 1]);
    }
  }

  /**
   * Whatever is edited, redelivered or answered late: the applied version never exceeds the desired one
   * and never decreases, and when they are equal the agent has confirmed exactly the stored settings.
   */
  lemma {:induction false} AppliedIsHonest(states: seq<State>, steps: seq<Step>, i: nat, j: nat)
    requires Run(states, steps) && Init(states[0]) && i <= j <= |steps|
    ensures AppliedOk(states[j])
    ensures states[i].row.applied <= states[j].row.applied
    decreases j
  {
    RunKeepsInv(states, steps, j);
    if i < j {
      AppliedIsHonest(states, steps, i, j - 1);
      RunKeepsInv(states, steps, j - 1);
      assert Enabled(states[j - 1], steps[j - 1]);
      StepKeepsInv(states[j - 1], steps[j - 1]);
    }
  }

  /** An edit counts exactly if it has seen the current version and rendered as many connections as there are by then. */
  lemma EditCountsIff(s: State, live: nat, expected: int, rendered: nat, settings: Settings, now: int)
    ensures Enabled(s, Connections(live)) && Enabled(After(s, Connections(live)), Save(expected, rendered, settings, now))
    ensures var s' := After(After(s, Connections(live)), Save(expected, rendered, settings, now));
            && s'.live == live && s'.queued == s.queued && s'.sent == s.sent && s'.replies == s.replies
            && if s.row.version == expected && live == rendered
               then s.row.version < s'.row.version && now <= s'.row.version && s'.row.settings == settings && s'.row.applied == s.row.applied
               else s'.row == s.row
  {
  }

  /** A confirmed delivery of the desired version is recorded; a late result of an older one changes nothing. */
  lemma ResultCountsIff(s: State, message: Id, reply: Reply)
    requires Inv(s) && Enabled(s, RecordApplied(message, reply))
    ensures var s' := After(s, RecordApplied(message, reply));
            && (s'.row.applied == s'.row.version <==> s.queued[message] == s.row.version || s.row.applied == s.row.version)
            && s' == if s.queued[message] == s.row.version then s.(row := s.row.(applied := s.row.version, error := "")) else s
  {
  }

  /** A failed delivery of the desired version is recorded as its error, and nothing else changes. */
  lemma FailureCountsIff(s: State, message: Id, error: string)
    requires Enabled(s, RecordFailed(message, error))
    ensures After(s, RecordFailed(message, error)) == if s.queued[message] == s.row.version then s.(row := s.row.(error := error)) else s
  {
  }

  /**
   * From every reachable state a message of the desired version can be delivered: it is sent with the stored settings,
   * the agent's answer is recorded, and afterwards those settings are applied. If the agent fails instead, its answer
   * is there as well, and it confirms nothing.
   */
  lemma DeliveryCompletes(s: State, message: Id, applied: int)
    requires Inv(s) && message in s.queued && s.queued[message] == s.row.version
    ensures Enabled(s, Send(message))
    ensures var sent, c := After(s, Send(message)), Command(message, s.row.version, s.row.settings);
            && Enabled(sent, AgentApplies(c)) && Enabled(sent, AgentFails(c, applied))
            && (var answered, r := After(sent, AgentApplies(c)), Reply(message, s.row.version, s.row.version, true);
                && Enabled(answered, RecordApplied(message, r))
                && var done := After(answered, RecordApplied(message, r));
                   && done.row == s.row.(applied := s.row.version, error := "") && (s.row.version, s.row.settings) in done.confirmed)
            && (var failed := After(sent, AgentFails(c, applied));
                Reply(message, s.row.version, applied, false) in failed.replies && failed.confirmed == s.confirmed && failed.row == s.row)
  {
  }

  // ---------------------------------------------------------------- the delivery loop's body

  datatype Outcome = Superseded | Retry | Acked | Rejected

  lemma RunExtends(states: seq<State>, steps: seq<Step>, step: Step)
    requires Run(states, steps) && Enabled(states[|steps|], step)
    ensures Run(states + [After(states[|steps|], step)], steps + [step])
  {
    var states', steps' := states + [After(states[|steps|], step)], steps + [step];
    forall i | 0 <= i < |steps'| ensures Enabled(states'[i], steps'[i]) && states'[i + 1] == After(states'[i], steps'[i]) {
      if i < |steps| { assert Enabled(states[i], steps[i]) && states[i + 1] == After(states[i], steps[i]); }
    }
  }

  /** The node's configuration row and its queue; the network, the agent and the history are in `rest`. */
  class Delivery {
    var row: Row
    var live: nat
    var queued: map<Id, int>
    var rest: State
    ghost var states: seq<State>
    ghost var steps: seq<Step>

    constructor (row: Row, live: nat)
      requires row.applied < row.version
      ensures Valid() && this.row == row && this.live == live && queued == map[]
    {
      this.row, this.live, queued := row, live, map[];
      var s := State(row, live, map[], {}, {}, {}, map[row.version := row.settings]);
      rest, states, steps := s, [s], [];
    }

    function Abstract(): State
      reads this
    {
      rest.(row := row, live := live, queued := queued)
    }

    ghost predicate Valid()
      reads this
    {
      Run(states, steps) && Init(states[0]) && states[|steps|] == Abstract()
    }

    method Record(before: State, step: Step)
      requires Run(states, steps) && Init(states[0]) && before == states[|steps|] && Enabled(before, step)
      requires var s := After(before, step); s.row == row && s.live == live && s.queued == queued
      modifies this`rest, this`states, this`steps
      ensures Valid() && Abstract() == After(before, step)
    {
      RunExtends(states, steps, step);
      rest := After(before, step);
      states, steps := states + [rest], steps + [step];
    }

    /** `UpdateHysteria2NodeConfig` as `Save` calls it. */
    method UpdateNodeConfig(expected: int, rendered: nat, settings: Settings, now: int) returns (ok: bool)
      requires Valid()
      modifies this
      ensures Valid() && queued == old(queued) && live == old(live)
      ensures ok <==> old(row).version == expected && old(live) == rendered
      ensures if ok then row.version > old(row).version && row.settings == settings && row.applied == old(row).applied else row == old(row)
    {
      var before := Abstract();
      ok := row.version == expected;
      if ok {
        var edited := Row(Max(now, expected + 1), settings, row.applied, "");
        ok := live == rendered;
        if ok { row := edited; }
      }
      Record(before, Save(expected, rendered, settings, now));
    }

    /** Any steps of edits, other deliveries, the network and the agent. */
    method Interfere(message: Id)
      requires Valid() && message in queued
      modifies this
      ensures Valid() && message in queued && queued[message] == old(queued[message])
    {
      var count: int := *;
      if count < 0 { count := 0; }
      for i := 0 to count
        invariant Valid() && message in queued && queued[message] == old(queued[message])
      {
        var step: Step := *;
        var before := Abstract();
        if Enabled(before, step) {
          var next := After(before, step);
          row, live, queued := next.row, next.live, next.queued;
          Record(before, step);
        }
      }
    }

    /** Waiting for the answer to a command: meanwhile anything may happen, and the answer may not come. */
    method AwaitReply(message: Id) returns (reply: Option<Reply>)
      requires Valid() && message in queued
      modifies this
      ensures Valid() && message in queued && queued[message] == old(queued[message])
      ensures reply.Some? ==> reply.value in rest.replies
    {
      Interfere(message);
      if rest.replies != {} {
        var lost: bool := *;
        if !lost {
          var r :| r in rest.replies;
          return Some(r);
        }
      }
      return None;
    }

    /** `apply`: one attempt to deliver the version of a leased message. */
    method Apply(message: Id, error: string) returns (outcome: Outcome)
      requires Valid() && message in queued && error != ""
      modifies this
      ensures Valid()
      ensures outcome.Superseded? <==> old(queued[message]) != old(row.version)
      ensures outcome.Superseded? ==> Abstract() == old(Abstract())
      ensures outcome.Acked? && row.version == old(queued[message]) ==>
                row.applied == row.version && (row.version, row.settings) in rest.confirmed
      ensures outcome.Rejected? && row.version == old(queued[message]) ==> row.error == error
    {
      var version := queued[message];
      if version != row.version {
        return Superseded;
      }
      Record(Abstract(), Send(message));
      var reply := AwaitReply(message);
      if reply.None? || reply.value.correlation != message || reply.value.desired != version {
        return Retry;
      }
      var before := Abstract();
      if reply.value.ok && reply.value.applied == version {
        row := Recorded(row, version, "");
        Record(before, RecordApplied(message, reply.value));
        RunKeepsInv(states, steps, |steps|);
        return Acked;
      }
      row := Recorded(row, version, error);
      Record(before, RecordFailed(message, error));
      return Rejected;
    }
  }
}
