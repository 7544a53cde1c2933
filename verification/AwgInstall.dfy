/**
 * The installation of an AmneziaWG host as a chain of steps. What the host, the registration and the
 * agent answer is an oracle; the transition function is the program's own.
 */
module AwgInstall {
  import opened Wrappers

  datatype Step = Prepare | Launch | Poll | Handoff | Register | Agent | Verify | WaitAgent | Finish | Unknown

  datatype Install = Install(bootId: string, runs: nat, deadline: int)

  /** A remote command or local action: its trimmed output and the fields of it, or an error. */
  datatype Reply = Output(text: string, fields: seq<string>) | Retryable | Fatal

  /** Settings that the agent was asked to apply, as far as the server knows. */
  datatype Applied = Applied(readable: bool, version: int, applied: int, failed: bool)

  datatype Oracle = Oracle(reply: Reply, online: bool, settings: Option<Applied>)

  datatype Outcome = Next(step: Step, state: Install, wait: int) | Done | Error

  const MAX_RUNS := 4
  const POLL_WAIT := 10_000
  const AGENT_WAIT := 5_000
  const RETRY_WAIT := 10_000
  const EXPIRY_MARGIN := 300_000

  /** A step that fails is repeated when the connection failed and ends the installation otherwise. */
  function Proceed(step: Step, s: Install, reply: Reply, next: Step, s': Install, wait: int): Outcome {
    match reply
    case Output(_, _) => Next(next, s', wait)
    case Retryable => Next(step, s, POLL_WAIT)
    case Fatal => Error
  }

  predicate Rebooting(phase: string) {
    phase == "2" || phase == "3"
  }

  function PollOutcome(s: Install, fields: seq<string>): Outcome {
    if |fields| != 3 then Error
    else if (fields[1] == "absent" || fields[1] == "99") && fields[2] == "0" then Next(Handoff, s, 0)
    else if fields[0] != s.bootId && Rebooting(fields[1]) then Next(Launch, s.(bootId := fields[0]), 0)
    else if fields[2] == "running" || (Rebooting(fields[1]) && fields[2] == "1") then Next(Poll, s, POLL_WAIT)
    else Error
  }

  function AgentOutcome(s: Install, oracle: Oracle): Outcome {
    if !oracle.online then Next(WaitAgent, s, AGENT_WAIT)
    else match oracle.settings
      case None => Next(Finish, s, 0)
      case Some(a) =>
        if a.readable && a.version <= a.applied then Next(Finish, s, 0)
        else if a.readable && a.failed then Error
        else Next(WaitAgent, s, AGENT_WAIT)
  }

  /** `ExecuteAWGStep`. */
  function Execute(step: Step, s: Install, now: int, oracle: Oracle): Outcome {
    if now > s.deadline then Error
    else match step
      case Prepare =>
        var bootId := if oracle.reply.Output? then oracle.reply.text else "";
        Proceed(step, s.(bootId := bootId), oracle.reply, Launch, s.(bootId := bootId), 0)
      case Launch =>
        if s.runs >= MAX_RUNS then Error
        else Proceed(step, s, oracle.reply, Poll, s.(runs := s.runs + 1), POLL_WAIT)
      case Poll =>
        if oracle.reply.Output? then PollOutcome(s, oracle.reply.fields)
        else Proceed(step, s, oracle.reply, step, s, POLL_WAIT)
      case Handoff => Proceed(step, s, oracle.reply, Register, s, 0)
      case Register => Proceed(step, s, oracle.reply, Agent, s, 0)
      case Agent => Proceed(step, s, oracle.reply, Verify, s, 0)
      case Verify => Proceed(step, s, oracle.reply, WaitAgent, s, 0)
      case WaitAgent => AgentOutcome(s, oracle)
      case Finish => Done
      case Unknown => Error
  }

  // ---------------------------------------------------------------- one transition

  function Position(step: Step): nat {
    match step
    case Prepare => 0 case Launch => 1 case Poll => 2 case Handoff => 3 case Register => 4 case Agent => 5
    case Verify => 6 case WaitAgent => 7 case Finish => 8 case Unknown => 9
  }

  /** The changes of step that are still possible, counting remaining launches. */
  function Rank(step: Step, runs: nat): int {
    match step
    case Prepare => 14 - 2 * runs
    case Launch => 13 - 2 * runs
    case Poll => 14 - 2 * runs
    case _ => 8 - Position(step)
  }

  /**
   * A transition either repeats its step after at least five seconds, or lowers the rank; only a counted
   * launch changes the number of runs; no step is skipped, and the only way back is from poll to launch.
   */
  lemma TransitionDescends(step: Step, s: Install, now: int, oracle: Oracle)
    requires Execute(step, s, now, oracle).Next? && s.runs <= MAX_RUNS
    ensures var n := Execute(step, s, now, oracle);
            && now <= s.deadline == n.state.deadline && 0 <= n.wait && n.state.runs <= MAX_RUNS
            && (if n.step == step then AGENT_WAIT <= n.wait && n.state.runs == s.runs
                else Rank(n.step, n.state.runs) < Rank(step, s.runs))
            && n.state.runs == s.runs + (if step == Launch && n.step == Poll then 1 else 0)
            && (Position(n.step) < Position(step) ==> step == Poll && n.step == Launch)
            && Position(n.step) <= Position(step) + 1 && n.step != Unknown
            && 0 <= Rank(n.step, n.state.runs)
  {
  }

  // ---------------------------------------------------------------- when a step fails, and where it leads

  /** The installer has finished and exited with zero. */
  predicate Succeeded(fields: seq<string>) {
    |fields| == 3 && fields[1] in {"absent", "99"} && fields[2] == "0"
  }

  /** The host came up under another boot identifier in one of the two phases that reboot it. */
  predicate Rebooted(s: Install, fields: seq<string>) {
    |fields| == 3 && fields[1] in {"2", "3"} && fields[0] != s.bootId
  }

  /** It is at work, or about to reboot. */
  predicate StillAtWork(fields: seq<string>) {
    |fields| == 3 && (fields[2] == "running" || (fields[1] in {"2", "3"} && fields[2] == "1"))
  }

  /** Settings that the agent has tried to apply in vain. */
  predicate SettingsFailed(a: Applied) {
    a.readable && a.failed && a.applied < a.version
  }

  /** What ends an installation at a step: the deadline, a fatal reply, a bad report, spent launches, or failed settings. */
  predicate Fails(step: Step, s: Install, now: int, o: Oracle) {
    || s.deadline < now
    || (step in {Prepare, Launch, Poll, Handoff, Register, Agent, Verify} && o.reply.Fatal?)
    || (step == Launch && 4 <= s.runs)
    || (step == Poll && o.reply.Output? && !Succeeded(o.reply.fields) && !Rebooted(s, o.reply.fields) && !StillAtWork(o.reply.fields))
    || (step == WaitAgent && o.online && o.settings.Some? && SettingsFailed(o.settings.value))
    || step == Unknown
  }

  lemma FailsIff(step: Step, s: Install, now: int, o: Oracle)
    ensures Execute(step, s, now, o).Error? <==> Fails(step, s, now, o)
    ensures Execute(step, s, now, o).Done? <==> step == Finish && now <= s.deadline
  {
  }

  /** A step is repeated, ten seconds later, while the host cannot be reached, and five while the agent is not ready. */
  predicate Repeats(step: Step, s: Install, o: Oracle) {
    || (step in {Prepare, Launch, Poll, Handoff, Register, Agent, Verify} && o.reply.Retryable?)
    || (step == Poll && o.reply.Output? && !Succeeded(o.reply.fields) && !Rebooted(s, o.reply.fields))
    || (step == WaitAgent && !AgentReady(o))
  }

  /**
   * A step that does not fail is repeated exactly while its answer is still to come. Otherwise the next step follows:
   * at once, except that a launched installer is left alone for ten seconds; and after a reboot the installer is
   * launched again, under the new boot identifier.
   */
  lemma LeadsTo(step: Step, s: Install, now: int, o: Oracle)
    requires !Fails(step, s, now, o) && step != Finish
    ensures var n := Execute(step, s, now, o);
            && n.Next? && (n.step == step <==> Repeats(step, s, o))
            && (n.step == step ==> n.wait == if step == WaitAgent then 5_000 else 10_000)
            && (n.step != step ==> n.wait == if step == Launch then 10_000 else 0)
            && (n.step != step && !(step == Poll && Rebooted(s, o.reply.fields) && !Succeeded(o.reply.fields)) ==> Position(n.step) == Position(step) + 1)
            && (step == Poll && o.reply.Output? && Rebooted(s, o.reply.fields) && !Succeeded(o.reply.fields) ==>
                  n.step == Launch && n.state == s.(bootId := o.reply.fields[0]))
            && (step == Prepare && o.reply.Output? ==> n.state == s.(bootId := o.reply.text))
            && (step == Launch && n.step == Poll ==> n.state == s.(runs := s.runs + 1))
            && (step !in {Prepare, Launch, Poll} || (n.step == step && step != Prepare) ==> n.state == s)
  {
  }

  /** An answer and the time at which it is asked for. */
  datatype Answer = Answer(now: int, oracle: Oracle)

  /** What an installation comes to with these answers. */
  function Play(step: Step, s: Install, answers: seq<Answer>): Outcome
    decreases |answers|
  {
    if answers == [] then Next(step, s, 0)
    else
      match Execute(step, s, answers[0].now, answers[0].oracle)
      case Next(next, s', _) => Play(next, s', answers[1..])
      case end => end
  }

  const ALL_STEPS: seq<Step> := [Prepare, Launch, Poll, Handoff, Register, Agent, Verify, WaitAgent, Finish]

  /** The host, the installer and the agent do what the step asks for. */
  predicate Favourable(step: Step, o: Oracle) {
    match step
    case Poll => o.reply.Output? && Succeeded(o.reply.fields)
    case WaitAgent => AgentReady(o)
    case Finish => true
    case Unknown => false
    case _ => o.reply.Output?
  }

  /** Where everything goes well and in time, an installation is done after its nine steps. */
  lemma {:induction false} SuccessIsDone(s: Install, answers: seq<Answer>, k: nat)
    requires k < 9 && |answers| == 9 - k && s.runs <= (if k <= 1 then 3 else 4)
    requires forall i :: 0 <= i < |answers| ==> answers[i].now <= s.deadline && Favourable(ALL_STEPS[k + i], answers[i].oracle)
    ensures Play(ALL_STEPS[k], s, answers).Done?
    decreases |answers|
  {
    var step, a := ALL_STEPS[k], answers[0];
    assert Favourable(ALL_STEPS[k + 0], a.oracle);
    if k < 8 {
      LeadsTo(step, s, a.now, a.oracle);
      var n := Execute(step, s, a.now, a.oracle);
      assert n.step == ALL_STEPS[k + 1];
      forall i | 0 <= i < |answers[1..]| ensures answers[1..][i].now <= n.state.deadline && Favourable(ALL_STEPS[k + 1 + i], answers[1..][i].oracle) {
        assert answers[1..][i] == answers[i + 1] && Favourable(ALL_STEPS[k + (i + 1)], answers[i + 1].oracle);
      }
      SuccessIsDone(n.state, answers[1..], k + 1);
    }
  }

  /** And answers that only repeat a step delay it without changing what comes of it. */
  lemma RepeatsOnlyDelay(step: Step, s: Install, a: Answer, answers: seq<Answer>)
    requires step != Finish && (step == Prepare ==> answers != []) && !Fails(step, s, a.now, a.oracle) && Repeats(step, s, a.oracle)
    ensures Play(step, s, [a] + answers) == Play(step, s, answers)
  {
    LeadsTo(step, s, a.now, a.oracle);
    assert ([a] + answers)[1..] == answers;
    if step == Prepare { assert Execute(step, s.(bootId := ""), answers[0].now, answers[0].oracle) == Execute(step, s, answers[0].now, answers[0].oracle); }
  }

  // ---------------------------------------------------------------- whole chains

  /** One execution of a leased message; its step was checked against the deadline at `now`. */
  datatype Execution = Execution(step: Step, state: Install, leasedAt: int, now: int, oracle: Oracle)

  function OutcomeOf(e: Execution): Outcome {
    Execute(e.step, e.state, e.now, e.oracle)
  }

  /**
   * A message that can be leased from a time on comes after an execution: as the successor that its outcome
   * asked for, after the wait it asked for, or as the same message once more, because the execution was
   * interrupted, its completion refused or its lease ended without one.
   */
  predicate ComesAfter(e: Execution, step: Step, s: Install, from: int) {
    || (OutcomeOf(e).Next? && step == OutcomeOf(e).step && s == OutcomeOf(e).state && e.now + OutcomeOf(e).wait <= from)
    || (step == e.step && s == e.state && e.leasedAt + RETRY_WAIT <= from)
  }

  /** A message is executed under its lease, and leased only before it expires. */
  predicate InTime(e: Execution) {
    e.leasedAt <= e.now && e.leasedAt < e.state.deadline + EXPIRY_MARGIN
  }

  /** All executions of one installation, those that were repeated included. */
  ghost predicate Chain(c: seq<Execution>) {
    c != [] ==>
      var last := c[|c| - 1];
      InTime(last) && (|c| > 1 ==> Chain(c[..|c| - 1]) && ComesAfter(c[|c| - 2], last.step, last.state, last.leasedAt))
  }

  function CountedLaunches(c: seq<Execution>): nat {
    if |c| < 2 then 0
    else CountedLaunches(c[..|c| - 1]) + if c[|c| - 2].step == Launch && c[|c| - 1].step == Poll then 1 else 0
  }

  lemma {:induction false} ChainAdvances(c: seq<Execution>)
    requires Chain(c) && c != [] && c[0].state.runs <= MAX_RUNS && c[0].step != Unknown
    ensures var first, last := c[0], c[|c| - 1];
            && last.state.runs <= MAX_RUNS && last.state.deadline == first.state.deadline && last.step != Unknown
            && last.state.runs == first.state.runs + CountedLaunches(c)
            && AGENT_WAIT * (|c| - 1 + Rank(last.step, last.state.runs) - Rank(first.step, first.state.runs)) <= last.leasedAt - first.leasedAt
  {
    if |c| > 1 {
      ChainAdvances(c[..|c| - 1]);
      var e := c[|c| - 2];
      assert InTime(e) by { assert c[..|c| - 1][|c| - 2] == e; }
      if OutcomeOf(e).Next? { TransitionDescends(e.step, e.state, e.now, e.oracle); }
    }
  }

  /**
   * The installation terminates: at most four launches are counted, and from any step the number of
   * executions, repeated ones included, is bounded by the rank and by the five-second waits that fit before
   * the messages expire, five minutes after the deadline.
   */
  lemma InstallationTerminates(c: seq<Execution>)
    requires Chain(c) && c != [] && c[0].state.runs <= MAX_RUNS && c[0].step != Unknown
    ensures c[0].state.runs + CountedLaunches(c) <= MAX_RUNS
    ensures AGENT_WAIT * (|c| - 1 - Rank(c[0].step, c[0].state.runs)) < c[0].state.deadline + EXPIRY_MARGIN - c[0].leasedAt
    ensures Rank(c[0].step, c[0].state.runs) <= 14
  {
    ChainAdvances(c);
    var last := c[|c| - 1];
    assert InTime(last) && 0 <= Rank(last.step, last.state.runs);
  }

  const INSTALLATION_TIME := 5_400_000

  /** From the first step, ninety minutes before the deadline, no more than 1154 executions happen. */
  lemma NewInstallationTerminates(c: seq<Execution>)
    requires Chain(c) && c != [] && c[0].step == Prepare && c[0].state.runs == 0
    requires c[0].state.deadline - INSTALLATION_TIME <= c[0].leasedAt
    ensures |c| <= 1154 && CountedLaunches(c) <= MAX_RUNS
  {
    InstallationTerminates(c);
  }

  // ---------------------------------------------------------------- what a finished chain has been through

  lemma {:induction false} ChainAt(c: seq<Execution>, i: nat)
    requires Chain(c) && i < |c| - 1
    ensures ComesAfter(c[i], c[i + 1].step, c[i + 1].state, c[i + 1].leasedAt)
  {
    if i < |c| - 2 {
      ChainAt(c[..|c| - 1], i);
    }
  }

  /** Execution i is of the step at position p, and the next one is of the step after it. */
  ghost predicate PassesAt(c: seq<Execution>, p: nat, i: int) {
    0 <= i < |c| - 1 && Position(c[i].step) == p && Position(c[i + 1].step) == p + 1
  }

  ghost predicate Passes(c: seq<Execution>, p: nat) {
    exists i :: PassesAt(c, p, i)
  }

  lemma {:induction false} NoStepSkipped(c: seq<Execution>, p: nat)
    requires Chain(c) && c != [] && c[0].state.runs <= MAX_RUNS && c[0].step != Unknown
    requires Position(c[0].step) <= p < Position(c[|c| - 1].step)
    ensures Passes(c, p)
  {
    var init, e := c[..|c| - 1], c[|c| - 2];
    ChainAdvances(init);
    if OutcomeOf(e).Next? { TransitionDescends(e.step, e.state, e.now, e.oracle); }
    if p < Position(e.step) {
      NoStepSkipped(init, p);
      var i :| PassesAt(init, p, i);
      assert PassesAt(c, p, i);
    } else {
      assert PassesAt(c, p, |c| - 2);
    }
  }

  /** The installer's report that lets an installation go on. */
  predicate ReportsSuccess(o: Oracle) {
    o.reply.Output? && Succeeded(o.reply.fields)
  }

  predicate AgentReady(o: Oracle) {
    o.online && (o.settings.Some? ==> o.settings.value.readable && o.settings.value.version <= o.settings.value.applied)
  }

  /** What it takes to get from one step to the one after it. */
  lemma WhatItTakes(a: Execution, b: Execution)
    requires ComesAfter(a, b.step, b.state, b.leasedAt) && Position(b.step) == Position(a.step) + 1
    ensures Position(a.step) < 7 ==> a.oracle.reply.Output?
    ensures (a.step == Poll ==> ReportsSuccess(a.oracle)) && (a.step == WaitAgent ==> AgentReady(a.oracle))
  {
  }

  /**
   * A new installation that reaches its last step has executed every step before it, its installer
   * reported success, every remote command went through, and its agent came up with the settings applied.
   */
  lemma FinishedMeansInstalled(c: seq<Execution>)
    requires Chain(c) && c != [] && c[0].step == Prepare && c[0].state.runs == 0 && c[|c| - 1].step == Finish
    ensures forall p: nat :: p < 8 ==> Passes(c, p)
    ensures exists i :: PassesAt(c, 2, i) && ReportsSuccess(c[i].oracle)
    ensures exists i :: PassesAt(c, 7, i) && AgentReady(c[i].oracle)
    ensures forall p: nat, i :: p < 7 && PassesAt(c, p, i) ==> c[i].oracle.reply.Output?
  {
    forall p: nat | p < 8 ensures Passes(c, p) {
      NoStepSkipped(c, p);
    }
    forall p: nat, i | p < 8 && PassesAt(c, p, i)
      ensures p < 7 ==> c[i].oracle.reply.Output?
      ensures (p == 2 ==> ReportsSuccess(c[i].oracle)) && (p == 7 ==> AgentReady(c[i].oracle))
    {
      ChainAt(c, i);
      WhatItTakes(c[i], c[i + 1]);
    }
    assert Passes(c, 2) && Passes(c, 7);
  }

  ghost predicate Polling(c: seq<Execution>, i: nat, j: nat)
    requires i <= j <= |c|
  {
    forall k :: i <= k < j ==> c[k].step == Poll
  }

  lemma {:induction false} PollingKeepsBoot(c: seq<Execution>, i: nat, j: nat)
    requires Chain(c) && i < j < |c| && c[i].step == Launch && Polling(c, i + 1, j + 1)
    ensures c[j].state.bootId == c[i].state.bootId
  {
    ChainAt(c, j - 1);
    if j > i + 1 {
      PollingKeepsBoot(c, i, j - 1);
    }
  }

  /** The installer is launched again only after the host has been seen under another boot identifier. */
  lemma RelaunchNeedsReboot(c: seq<Execution>, i: nat, j: nat)
    requires Chain(c) && i + 1 < j < |c| && c[i].step == Launch && c[j].step == Launch && Polling(c, i + 1, j)
    ensures c[j].state.bootId != c[i].state.bootId
    ensures c[j - 1].oracle.reply.Output? && |c[j - 1].oracle.reply.fields| == 3 && c[j - 1].oracle.reply.fields[0] == c[j].state.bootId
  {
    PollingKeepsBoot(c, i, j - 1);
    ChainAt(c, j - 1);
  }
}
