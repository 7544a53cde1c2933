/**
 * One Hysteria node on the server: its settings, its connections, and the client configurations issued
 * from both. Edits re-render the connections they have listed, compare the version and the number of live
 * connections, and commit; creations read the settings first and insert later, without comparing anything.
 */
module HysteriaNode {
  import opened Ids
  import opened Numbers
  import opened Wrappers

  datatype Connection = Connection(password: string, deleted: bool)

  /** A rendered client configuration; rendering is a function of exactly these two. */
  datatype Conf = Conf(settings: string, password: string)

  datatype Draft =
    | Creation(id: Id, settings: string, password: string)
    | Edit(expected: int, settings: string, sources: Option<map<Id, string>>)

  datatype State = State(version: int, settings: string, connections: map<Id, Connection>, issued: map<Id, Conf>,
                         drafts: map<Id, Draft>)

  datatype Step =
    | BeginCreate(session: Id, id: Id, password: string)
    | CommitCreate(session: Id)
    | BeginEdit(session: Id, expected: int, settings: string)
    | ListSources(session: Id)
    | CommitEdit(session: Id, now: int)
    | Delete(id: Id)

  function Live(connections: map<Id, Connection>): set<Id> {
    set id | id in connections && !connections[id].deleted
  }

  function Sources(connections: map<Id, Connection>): map<Id, string> {
    map id | id in Live(connections) :: connections[id].password
  }

  predicate Enabled(s: State, step: Step) {
    match step
    case BeginCreate(_, _, _) => true
    case CommitCreate(session) => session in s.drafts && s.drafts[session].Creation? && s.drafts[session].id !in s.connections
    case BeginEdit(_, _, _) => true
    case ListSources(session) => session in s.drafts && s.drafts[session].Edit?
    case CommitEdit(session, _) => session in s.drafts && s.drafts[session].Edit? && s.drafts[session].sources.Some?
    case Delete(_) => true
  }

  /** `UpdateHysteria2NodeConfig`: the version is the expected one, and as many connections are live as were rendered. */
  predicate Accepted(s: State, d: Draft)
    requires d.Edit? && d.sources.Some?
  {
    s.version == d.expected && |Live(s.connections)| == |d.sources.value|
  }

  function Rewritten(issued: map<Id, Conf>, settings: string, sources: map<Id, string>): map<Id, Conf> {
    map id | id in issued :: if id in sources then Conf(settings, sources[id]) else issued[id]
  }

  function After(s: State, step: Step): State
    requires Enabled(s, step)
  {
    match step
    case BeginCreate(session, id, password) => s.(drafts := s.drafts[session := Creation(id, s.settings, password)])
    case CommitCreate(session) =>
      var d := s.drafts[session];
      s.(connections := s.connections[d.id := Connection(d.password, false)], issued := s.issued[d.id := Conf(d.settings, d.password)],
         drafts := s.drafts - {session})
    case BeginEdit(session, expected, settings) => s.(drafts := s.drafts[session := Edit(expected, settings, None)])
    case ListSources(session) => s.(drafts := s.drafts[session := s.drafts[session].(sources := Some(Sources(s.connections)))])
    case CommitEdit(session, now) =>
      var d := s.drafts[session];
      if !Accepted(s, d) then s.(drafts := s.drafts - {session})
      else s.(version := Max(now, d.expected + 1), settings := d.settings, issued := Rewritten(s.issued, d.settings, d.sources.value),
              drafts := s.drafts - {session})
    case Delete(id) =>
      if id in s.connections then s.(connections := s.connections[id := s.connections[id].(deleted := true)]) else s
  }

  ghost predicate Happens(states: seq<State>, steps: seq<Step>, i: nat)
    requires i < |steps| && i + 1 < |states|
  {
    Enabled(states[i], steps[i]) && states[i + 1] == After(states[i], steps[i])
  }

  ghost predicate Run(states: seq<State>, steps: seq<Step>) {
    |states| == |steps| + 1 && forall i :: 0 <= i < |steps| ==> Happens(states, steps, i)
  }

  predicate Init(s: State) {
    s.connections == map[] && s.issued == map[] && s.drafts == map[]
  }

  // ---------------------------------------------------------------- what holds of the tables

  /** Every connection has its configuration, and a listed password is the connection's. */
  ghost predicate Inv(s: State) {
    && s.issued.Keys == s.connections.Keys
    && (forall id :: id in s.connections ==> s.issued[id].password == s.connections[id].password)
    && (forall k :: k in s.drafts && s.drafts[k].Edit? && s.drafts[k].sources.Some? ==> ListedOk(s.connections, s.drafts[k].sources.value))
  }

  ghost predicate ListedOk(connections: map<Id, Connection>, sources: map<Id, string>) {
    forall id :: id in sources ==> id in connections && sources[id] == connections[id].password
  }

  lemma StepKeepsInv(s: State, step: Step)
    requires Inv(s) && Enabled(s, step)
    ensures Inv(After(s, step))
  {
  }

  lemma {:induction false} RunKeepsInv(states: seq<State>, steps: seq<Step>, n: nat)
    requires Run(states, steps) && Init(states[0]) && n <= |steps|
    ensures Inv(states[n])
  {
    if n > 0 {
      RunKeepsInv(states, steps, n - 1);
      assert Happens(states, steps, n - 1);
      StepKeepsInv(states[n - 1], steps[n - 1]);
    }
  }

  // ---------------------------------------------------------------- stale configurations

  /** The configuration of a connection in use renders the current settings and its password. */
  ghost predicate Fresh(s: State, id: Id) {
    id in s.connections && id in s.issued && s.issued[id] == Conf(s.settings, s.connections[id].password)
  }

  ghost predicate AllFresh(s: State) {
    forall id :: id in Live(s.connections) ==> Fresh(s, id)
  }

  /**
   * A commit that makes no configuration stale: a creation that has read the settings which are still current,
   * and an accepted edit that changes nothing or has listed every live connection.
   */
  ghost predicate Careful(s: State, step: Step) {
    match step
    case CommitCreate(session) => session in s.drafts && s.drafts[session].Creation? ==> s.drafts[session].settings == s.settings
    case CommitEdit(session, _) =>
      session in s.drafts && s.drafts[session].Edit? && s.drafts[session].sources.Some? && Accepted(s, s.drafts[session]) ==>
        s.drafts[session].settings == s.settings || Live(s.connections) <= s.drafts[session].sources.value.Keys
    case _ => true
  }

  /** While all configurations are fresh, a step leaves them so exactly if it is careful. */
  lemma FreshStepIff(s: State, step: Step)
    requires Inv(s) && Enabled(s, step) && AllFresh(s)
    ensures AllFresh(After(s, step)) <==> Careful(s, step)
  {
    var s' := After(s, step);
    match step
    case CommitCreate(session) =>
      var id := s.drafts[session].id;
      assert id in Live(s'.connections);
      assert forall q :: q in Live(s'.connections) && q != id ==> q in Live(s.connections) && Fresh(s, q);
    case CommitEdit(session, _) => EditFreshIff(s, session, step.now);
    case _ => assert forall q :: q in Live(s'.connections) ==> q in Live(s.connections) && Fresh(s, q);
  }

  lemma EditFreshIff(s: State, session: Id, now: int)
    requires Inv(s) && Enabled(s, CommitEdit(session, now)) && AllFresh(s)
    ensures AllFresh(After(s, CommitEdit(session, now))) <==> Careful(s, CommitEdit(session, now))
  {
    var d, s' := s.drafts[session], After(s, CommitEdit(session, now));
    if Accepted(s, d) {
      forall id | id in Live(s.connections) ensures Fresh(s', id) <==> id in d.sources.value || d.settings == s.settings {
        assert Fresh(s, id) && ListedOk(s.connections, d.sources.value);
      }
      assert s'.connections == s.connections;
    } else {
      assert forall id :: id in Live(s.connections) ==> Fresh(s, id) && Fresh(s', id);
    }
  }

  /**
   * Over every run: as long as all commits were careful every configuration in use is fresh, and the first commit
   * that is not leaves one stale.
   */
  lemma {:induction false} FreshIff(states: seq<State>, steps: seq<Step>, n: nat)
    requires Run(states, steps) && Init(states[0]) && n <= |steps| && forall i :: 0 <= i < n ==> Careful(states[i], steps[i])
    ensures AllFresh(states[n])
    ensures n < |steps| ==> (AllFresh(states[n + 1]) <==> Careful(states[n], steps[n]))
  {
    if n > 0 {
      FreshIff(states, steps, n - 1);
    }
    if n < |steps| {
      RunKeepsInv(states, steps, n);
      assert Happens(states, steps, n);
      FreshStepIff(states[n], steps[n]);
    }
  }

  /** Whatever was stale before, an accepted edit that has listed every live connection makes all of them fresh. */
  lemma EditRepairs(s: State, session: Id, now: int)
    requires Inv(s) && Enabled(s, CommitEdit(session, now)) && Accepted(s, s.drafts[session])
    requires Live(s.connections) <= s.drafts[session].sources.value.Keys
    ensures AllFresh(After(s, CommitEdit(session, now)))
  {
    assert ListedOk(s.connections, s.drafts[session].sources.value);
  }

  // ---------------------------------------------------------------- edits do not overwrite each other

  /**
   * A commit of an edit takes effect exactly if the version is still the one that it expects and as many connections
   * are live as it has rendered; either way its draft is gone.
   */
  lemma EditCountsIff(s: State, session: Id, now: int)
    requires Enabled(s, CommitEdit(session, now))
    ensures var d, s' := s.drafts[session], After(s, CommitEdit(session, now));
            && s'.connections == s.connections && s'.drafts == s.drafts - {session}
            && if s.version == d.expected && |Live(s.connections)| == |d.sources.value|
               then s.version < s'.version && now <= s'.version && s'.settings == d.settings
               else s'.version == s.version && s'.settings == s.settings && s'.issued == s.issued
  {
  }

  lemma VersionStep(s: State, step: Step)
    requires Enabled(s, step)
    ensures s.version <= After(s, step).version
  {
  }

  lemma {:induction false} VersionsGrow(states: seq<State>, steps: seq<Step>, i: nat, j: nat)
    requires Run(states, steps) && i <= j <= |steps|
    ensures states[i].version <= states[j].version
    decreases j
  {
    if i < j {
      VersionsGrow(states, steps, i, j - 1);
      assert Happens(states, steps, j - 1);
      VersionStep(states[j - 1], steps[j - 1]);
    }
  }

  /** The settings of a step's edit have become the node's. */
  ghost predicate Takes(states: seq<State>, steps: seq<Step>, i: nat)
    requires Run(states, steps)
  {
    i < |steps| && steps[i].CommitEdit? && states[i].version < states[i + 1].version
  }

  /** Over every run, an edit that takes effect after another one was made in knowledge of it: none is lost. */
  lemma NoEditIsLost(states: seq<State>, steps: seq<Step>, i: nat, j: nat)
    requires Run(states, steps) && i < j && Takes(states, steps, i) && Takes(states, steps, j)
    ensures steps[j].session in states[j].drafts && states[j].drafts[steps[j].session].Edit?
    ensures states[i + 1].version <= states[j].drafts[steps[j].session].expected == states[j].version
  {
    assert Happens(states, steps, j);
    EditCountsIff(states[j], steps[j].session, steps[j].now);
    VersionsGrow(states, steps, i + 1, j);
  }

  // ---------------------------------------------------------------- runs that meet the limits

  lemma RunExtends(states: seq<State>, steps: seq<Step>, step: Step)
    requires Run(states, steps) && Enabled(states[|steps|], step)
    ensures Run(states + [After(states[|steps|], step)], steps + [step])
  {
    var states', steps' := states + [After(states[|steps|], step)], steps + [step];
    forall i | 0 <= i < |steps'| ensures Happens(states', steps', i) {
      if i < |steps| { assert Happens(states, steps, i); }
    }
  }

  /** Goes on to the next state. */
  lemma Then(states: seq<State>, steps: seq<Step>, step: Step, next: State) returns (states': seq<State>, steps': seq<Step>)
    requires Run(states, steps) && Init(states[0]) && Enabled(states[|steps|], step) && After(states[|steps|], step) == next
    ensures Run(states', steps') && Init(states'[0]) && states'[|steps'|] == next
  {
    RunExtends(states, steps, step);
    states', steps' := states + [next], steps + [step];
  }

  /** The settings are edited after a creation has read them. */
  lemma OneOverlooked() returns (states: seq<State>, steps: seq<Step>)
    ensures Run(states, steps) && Init(states[0]) && states[|steps|] == State(2, "new", map[], map[], map["c" := Creation("a", "old", "p")])
  {
    var creation := Creation("a", "old", "p");
    var s0 := State(1, "old", map[], map[], map[]);
    states, steps := Then([s0], [], BeginCreate("c", "a", "p"), s0.(drafts := map["c" := creation]));
    states, steps := Then(states, steps, BeginEdit("e", 1, "new"), s0.(drafts := map["c" := creation, "e" := Edit(1, "new", None)]));
    assert Live(map[]) == {} && Sources(map[]) == map[];
    states, steps := Then(states, steps, ListSources("e"), s0.(drafts := map["c" := creation, "e" := Edit(1, "new", Some(map[]))]));
    states, steps := Then(states, steps, CommitEdit("e", 2), State(2, "new", map[], map[], map["c" := creation]));
  }

  /** The settings are edited between a creation's reading and its insert. */
  lemma StaleCreation() returns (states: seq<State>, steps: seq<Step>)
    ensures Run(states, steps) && Init(states[0]) && !AllFresh(states[|steps|])
  {
    states, steps := OneOverlooked();
    var s := State(2, "new", map["a" := Connection("p", false)], map["a" := Conf("old", "p")], map[]);
    states, steps := Then(states, steps, CommitCreate("c"), s);
    assert "a" in Live(s.connections) && !Fresh(s, "a");
  }

  /** An edit has listed the only connection. */
  lemma OneListed() returns (states: seq<State>, steps: seq<Step>)
    ensures Run(states, steps) && Init(states[0])
    ensures states[|steps|] == State(1, "old", map["a" := Connection("p", false)], map["a" := Conf("old", "p")],
                                     map["e" := Edit(1, "new", Some(map["a" := "p"]))])
  {
    var s0 := State(1, "old", map[], map[], map[]);
    var s2 := State(1, "old", map["a" := Connection("p", false)], map["a" := Conf("old", "p")], map[]);
    states, steps := Then([s0], [], BeginCreate("c", "a", "p"), s0.(drafts := map["c" := Creation("a", "old", "p")]));
    states, steps := Then(states, steps, CommitCreate("c"), s2);
    states, steps := Then(states, steps, BeginEdit("e", 1, "new"), s2.(drafts := map["e" := Edit(1, "new", None)]));
    assert Live(s2.connections) == {"a"} && Sources(s2.connections) == map["a" := "p"];
    states, steps := Then(states, steps, ListSources("e"), s2.(drafts := map["e" := Edit(1, "new", Some(map["a" := "p"]))]));
  }

  /** Then that connection is deleted and another one is created. */
  lemma OneSwapped() returns (states: seq<State>, steps: seq<Step>)
    ensures Run(states, steps) && Init(states[0])
    ensures states[|steps|] == State(1, "old", map["a" := Connection("p", true), "b" := Connection("q", false)],
                                     map["a" := Conf("old", "p"), "b" := Conf("old", "q")], map["e" := Edit(1, "new", Some(map["a" := "p"]))])
  {
    states, steps := OneListed();
    var edit := Edit(1, "new", Some(map["a" := "p"]));
    var s1 := states[|steps|].(connections := map["a" := Connection("p", true)]);
    states, steps := Then(states, steps, Delete("a"), s1);
    states, steps := Then(states, steps, BeginCreate("d", "b", "q"), s1.(drafts := map["e" := edit, "d" := Creation("b", "old", "q")]));
    states, steps := Then(states, steps, CommitCreate("d"),
                          State(1, "old", map["a" := Connection("p", true), "b" := Connection("q", false)],
                                map["a" := Conf("old", "p"), "b" := Conf("old", "q")], map["e" := edit]));
  }

  /** One connection is deleted and another created after an edit has listed them: the count does not tell. */
  lemma StaleSwap() returns (states: seq<State>, steps: seq<Step>)
    ensures Run(states, steps) && Init(states[0]) && !AllFresh(states[|steps|])
  {
    states, steps := OneSwapped();
    var connections := states[|steps|].connections;
    assert Live(connections) == {"b"};
    var s := State(2, "new", connections, map["a" := Conf("new", "p"), "b" := Conf("old", "q")], map[]);
    states, steps := Then(states, steps, CommitEdit("e", 2), s);
    assert "b" in Live(s.connections) && !Fresh(s, "b");
  }
}
