/**
 * One AmneziaWG node on the server: its configuration, the client materials, and the client
 * configurations issued from both. Edits and creations read first and commit later, so every commit
 * may meet tables that have moved on.
 */
module AwgNode {
  import opened Ids
  import opened Numbers
  import opened Wrappers
  import opened Ipv4Pool

  /** Everything of a node configuration that a client configuration is rendered from. */
  datatype Content = Content(pool: Pool, parameters: string)

  datatype Material = Material(address: int, keys: string)

  /** A rendered client configuration; rendering is a function of exactly these two. */
  datatype Conf = Conf(content: Content, material: Material)

  datatype Issued = Issued(conf: Conf, deleted: bool)

  type Materials = map<Id, Material>

  datatype Tables = Tables(version: int, content: Content, applied: int, materials: Materials, issued: map<Id, Issued>)

  function Addresses(m: Materials): set<int> {
    set c | c in m :: m[c].address
  }

  // ---------------------------------------------------------------- saving settings

  predicate AdmitsAll(pool: Pool, m: Materials) {
    forall c :: c in m ==> pool.Admits(m[c].address)
  }

  function Rendered(content: Content, m: Materials): map<Id, Conf> {
    map c | c in m :: Conf(content, m[c])
  }

  /** The loop of `Save`: renders every material, unless one has an address that the new pool cannot keep. */
  method RenderAll(content: Content, m: Materials) returns (r: Result<map<Id, Conf>>)
    ensures r.Ok? <==> forall c :: c in m ==> content.pool.Base() < m[c].address < content.pool.Broadcast() && m[c].address != content.pool.server
    ensures r.Ok? ==> r.value == Rendered(content, m)
  {
    var left, confs := m.Keys, map[];
    while left != {}
      invariant left <= m.Keys && AdmitsAll(content.pool, m - left)
      invariant confs == Rendered(content, m - left)
      decreases left
    {
      var c :| c in left;
      if !content.pool.Admits(m[c].address) {
        return Err;
      }
      confs, left := confs[c := Conf(content, m[c])], left - {c};
    }
    assert m - left == m;
    return Ok(confs);
  }

  function Rewritten(issued: map<Id, Issued>, confs: map<Id, Conf>): map<Id, Issued> {
    map c | c in issued :: if c in confs && !issued[c].deleted then issued[c].(conf := confs[c]) else issued[c]
  }

  predicate CanUpdate(t: Tables, expected: int, confs: map<Id, Conf>) {
    t.version == expected && |t.materials| == |confs|
  }

  function Updated(t: Tables, content: Content, version: int, applied: int, confs: map<Id, Conf>): Tables {
    t.(version := version, content := content, applied := applied, issued := Rewritten(t.issued, confs))
  }

  // ---------------------------------------------------------------- the machine

  /**
   * What a creation or an edit in progress knows. A creation has read the configuration. An edit has read
   * the version and the applied version with it, carries what it is going to write, and lists the
   * materials later.
   */
  datatype Draft = Creation(version: int, content: Content)
                 | Edit(expected: int, content: Content, applied: int, materials: Option<Materials>)

  datatype State = State(t: Tables, drafts: map<Id, Draft>)

  datatype Step =
    | BeginCreate(session: Id)
    | CommitCreate(session: Id, connection: Id, material: Material, taken: set<int>)
    | BeginEdit(session: Id, content: Content)
    | ListMaterials(session: Id)
    | CommitEdit(session: Id, now: int)
    | RecordResult(version: int)
    | Finalize(connection: Id)

  ghost predicate Enabled(s: State, step: Step) {
    match step
    case BeginCreate(_) => true
    case CommitCreate(session, connection, material, taken) =>
      && session in s.drafts && s.drafts[session].Creation?
      && var d := s.drafts[session];
      && d.content.pool.server in taken
      && Allocation(d.content.pool.first, d.content.pool.last, taken, Some(material.address))
      && (d.version > 0 ==> s.t.version == d.version)
      && connection !in s.t.materials && connection !in s.t.issued && material.address !in Addresses(s.t.materials)
    case BeginEdit(_, content) => content.pool.Sound()
    case ListMaterials(session) =>
      session in s.drafts && s.drafts[session].Edit? && AdmitsAll(s.drafts[session].content.pool, s.t.materials)
    case CommitEdit(session, _) =>
      && session in s.drafts && s.drafts[session].Edit? && s.drafts[session].materials.Some?
      && CanUpdate(s.t, s.drafts[session].expected, Rendered(s.drafts[session].content, s.drafts[session].materials.value))
    case RecordResult(_) => true
    case Finalize(connection) => connection in s.t.issued
  }

  ghost function After(s: State, step: Step): State
    requires Enabled(s, step)
  {
    match step
    case BeginCreate(session) => s.(drafts := s.drafts[session := Creation(s.t.version, s.t.content)])
    case CommitCreate(session, connection, material, _) =>
      s.(t := s.t.(materials := s.t.materials[connection := material],
                   issued := s.t.issued[connection := Issued(Conf(s.drafts[session].content, material), false)]))
    case BeginEdit(session, content) => s.(drafts := s.drafts[session := Edit(s.t.version, content, s.t.applied, None)])
    case ListMaterials(session) => s.(drafts := s.drafts[session := s.drafts[session].(materials := Some(s.t.materials))])
    case CommitEdit(session, now) =>
      var d := s.drafts[session];
      s.(t := Updated(s.t, d.content, Max(now, d.expected + 1), d.applied, Rendered(d.content, d.materials.value)))
    case RecordResult(version) => if s.t.version == version then s.(t := s.t.(applied := version)) else s
    case Finalize(connection) => s.(t := s.t.(issued := s.t.issued[connection := s.t.issued[connection].(deleted := true)]))
  }

  ghost predicate Run(states: seq<State>, steps: seq<Step>) {
    && |states| == |steps| + 1
    && forall i :: 0 <= i < |steps| ==> Enabled(states[i], steps[i]) && states[i + 1] == After(states[i], steps[i])
  }

  /** A registered node: a positive version, a sound pool and no clients. */
  ghost predicate Init(s: State) {
    s.t.version > 0 && s.t.applied <= s.t.version && s.t.content.pool.Sound() && s.t.materials == map[] && s.t.issued == map[] && s.drafts == map[]
  }

  // ---------------------------------------------------------------- invariant

  /** No issued configuration in use is stale. */
  ghost predicate IssuedFresh(t: Tables) {
    forall c :: c in t.issued && !t.issued[c].deleted ==> c in t.materials && t.issued[c].conf == Conf(t.content, t.materials[c])
  }

  /** Client addresses are distinct hosts of the node's network, other than the server's. */
  ghost predicate AddressesOk(t: Tables) {
    && t.content.pool.Sound() && AdmitsAll(t.content.pool, t.materials)
    && forall a, b :: a in t.materials && b in t.materials && a != b ==> t.materials[a].address != t.materials[b].address
  }

  predicate Within(m: Materials, m': Materials) {
    forall c :: c in m ==> c in m' && m'[c] == m[c]
  }

  ghost predicate DraftOk(t: Tables, d: Draft) {
    match d
    case Creation(version, content) =>
      0 < version <= t.version && (version == t.version ==> content == t.content)
    case Edit(expected, content, applied, materials) =>
      && applied <= expected <= t.version && content.pool.Sound()
      && (materials.Some? ==> AdmitsAll(content.pool, materials.value) && Within(materials.value, t.materials))
  }

  ghost predicate Inv(s: State) {
    && s.t.version > 0 && s.t.applied <= s.t.version
    && IssuedFresh(s.t) && AddressesOk(s.t)
    && forall d :: d in s.drafts ==> DraftOk(s.t, s.drafts[d])
  }

  /** Materials are only ever added, so an equal count means that none was added since. */
  lemma SameCountSame(m: Materials, m': Materials)
    requires Within(m, m') && |m| == |m'|
    ensures m == m'
  {
    assert m.Keys <= m'.Keys;
    SameSize(m.Keys, m'.Keys);
  }

  lemma SameSize(a: set<Id>, b: set<Id>)
    requires a <= b && |a| == |b|
    ensures a == b
  {
    assert |b - a| == |b| - |a|;
    assert b == a + (b - a);
  }

  lemma CreateKeeps(s: State, step: Step)
    requires Inv(s) && Enabled(s, step) && step.CommitCreate?
    ensures Inv(After(s, step))
  {
    var d, c, m := s.drafts[step.session], step.connection, step.material;
    var t := After(s, step).t;
    assert DraftOk(s.t, d) && d.content == s.t.content;
    AllocatedIsAdmitted(d.content.pool, step.taken, m.address);
    forall a | a in s.t.materials ensures s.t.materials[a].address != m.address {
      assert s.t.materials[a].address in Addresses(s.t.materials);
    }
    forall k | k in s.drafts ensures DraftOk(t, s.drafts[k]) {
      assert DraftOk(s.t, s.drafts[k]);
    }
  }

  lemma EditKeeps(s: State, step: Step)
    requires Inv(s) && Enabled(s, step) && step.CommitEdit?
    ensures Inv(After(s, step))
  {
    var d := s.drafts[step.session];
    var t := After(s, step).t;
    assert DraftOk(s.t, d);
    var listed := d.materials.value;
    assert |Rendered(d.content, listed)| == |listed| by {
      assert Rendered(d.content, listed).Keys == listed.Keys;
    }
    SameCountSame(listed, s.t.materials);
    forall k | k in s.drafts ensures DraftOk(t, s.drafts[k]) {
      assert DraftOk(s.t, s.drafts[k]);
    }
  }

  lemma StepKeepsInv(s: State, step: Step)
    requires Inv(s) && Enabled(s, step)
    ensures Inv(After(s, step))
  {
    match step
    case CommitCreate(_, _, _, _) => CreateKeeps(s, step);
    case CommitEdit(_, _) => EditKeeps(s, step);
    case _ =>
      var s' := After(s, step);
      forall k | k in s.drafts ensures DraftOk(s'.t, s.drafts[k]) {
        assert DraftOk(s.t, s.drafts[k]);
      }
  }

  /**
   * In every state of every run, each issued configuration in use is the rendering of the node's current
   * configuration and its material, and the client addresses are distinct hosts of the current network.
   */
  lemma {:induction false} NeverStale(states: seq<State>, steps: seq<Step>, n: nat)
    requires Run(states, steps) && Init(states[0]) && n <= |steps|
    ensures Inv(states[n])
    ensures IssuedFresh(states[n].t) && AddressesOk(states[n].t)
    ensures var t := states[n].t;
            forall c :: c in t.materials ==>
              t.content.pool.Base() < t.materials[c].address < t.content.pool.Broadcast() && t.materials[c].address != t.content.pool.server
  {
    if n > 0 {
      NeverStale(states, steps, n - 1);
      assert Enabled(states[n - 1], steps[n - 1]);
      StepKeepsInv(states[n - 1], steps[n - 1]);
    }
  }

  // ---------------------------------------------------------------- the applied version

  /** Versions never go back, and a committed edit moves on. */
  lemma VersionStep(s: State, step: Step)
    requires Enabled(s, step)
    ensures s.t.version <= After(s, step).t.version && (step.CommitEdit? ==> s.t.version < After(s, step).t.version)
  {
  }

  lemma {:induction false} VersionsGrow(states: seq<State>, steps: seq<Step>, i: nat, j: nat)
    requires Run(states, steps) && i <= j <= |steps|
    ensures states[i].t.version <= states[j].t.version
    decreases j
  {
    if i < j {
      VersionsGrow(states, steps, i, j - 1);
      assert Enabled(states[j - 1], steps[j - 1]) && states[j] == After(states[j - 1], steps[j - 1]);
      VersionStep(states[j - 1], steps[j - 1]);
    }
  }

  predicate Begins(step: Step, session: Id) {
    (step.BeginCreate? || step.BeginEdit?) && step.session == session
  }

  /** The edit of a session was begun at step b and not begun anew before step n. */
  ghost predicate BegunAt(steps: seq<Step>, b: nat, n: nat, session: Id) {
    && b < n <= |steps| && steps[b].BeginEdit? && steps[b].session == session
    && forall k :: b < k < n ==> !Begins(steps[k], session)
  }

  /** Between its beginning and its commit an edit remembers what it read. */
  lemma {:induction false} DraftRemembers(states: seq<State>, steps: seq<Step>, b: nat, n: nat, session: Id)
    requires Run(states, steps) && BegunAt(steps, b, n, session)
    ensures session in states[n].drafts && states[n].drafts[session].Edit?
    ensures states[n].drafts[session].expected == states[b].t.version && states[n].drafts[session].applied == states[b].t.applied
    decreases n
  {
    assert Enabled(states[n - 1], steps[n - 1]) && states[n] == After(states[n - 1], steps[n - 1]);
    if b < n - 1 {
      DraftRemembers(states, steps, b, n - 1, session);
      assert !Begins(steps[n - 1], session);
    }
  }

  /** A result for the version was recorded between two steps. */
  ghost predicate ResultBetween(steps: seq<Step>, b: nat, n: nat, version: int)
    requires n <= |steps|
  {
    exists k :: b <= k < n && steps[k] == RecordResult(version)
  }

  lemma AppliedStep(s: State, step: Step)
    requires Enabled(s, step) && After(s, step).t.version == s.t.version
    ensures After(s, step).t.applied == if step == RecordResult(s.t.version) then s.t.version else s.t.applied
  {
    VersionStep(s, step);
  }

  /** While the version stands, only a result for it moves the applied version, and to that version. */
  lemma {:induction false} AppliedBetween(states: seq<State>, steps: seq<Step>, b: nat, n: nat)
    requires Run(states, steps) && b <= n <= |steps| && states[n].t.version == states[b].t.version
    ensures states[n].t.applied ==
            if ResultBetween(steps, b, n, states[b].t.version) then states[b].t.version else states[b].t.applied
    decreases n
  {
    if b < n {
      VersionsGrow(states, steps, b, n - 1);
      assert Enabled(states[n - 1], steps[n - 1]) && states[n] == After(states[n - 1], steps[n - 1]);
      VersionStep(states[n - 1], steps[n - 1]);
      AppliedBetween(states, steps, b, n - 1);
      AppliedStep(states[n - 1], steps[n - 1]);
      var v := states[b].t.version;
      if steps[n - 1] == RecordResult(v) {
        assert ResultBetween(steps, b, n, v);
      } else {
        assert ResultBetween(steps, b, n, v) <==> ResultBetween(steps, b, n - 1, v);
      }
    }
  }

  /**
   * Saving rewrites the applied version with what the edit had read. It is lowered exactly if a result for
   * the edited version was recorded after the edit began and the edit had read an earlier applied version.
   */
  lemma EditLowersAppliedIff(states: seq<State>, steps: seq<Step>, b: nat, n: nat, session: Id)
    requires Run(states, steps) && n < |steps| && BegunAt(steps, b, n, session)
    requires steps[n].CommitEdit? && steps[n].session == session
    ensures states[n + 1].t.applied < states[n].t.applied <==>
            ResultBetween(steps, b, n, states[b].t.version) && states[b].t.applied < states[b].t.version
    ensures states[n].t.version < states[n + 1].t.version
  {
    assert Enabled(states[n], steps[n]) && states[n + 1] == After(states[n], steps[n]);
    DraftRemembers(states, steps, b, n, session);
    AppliedBetween(states, steps, b, n);
  }

  /** From every new node whose first settings are not applied yet, some run lowers the applied version. */
  lemma AppliedCanDecrease(s: State, session: Id, now: int)
    requires Init(s) && s.t.applied < s.t.version
    ensures exists states: seq<State>, steps :: Run(states, steps) && states[0] == s && |steps| == 4 && states[4].t.applied < states[3].t.applied
  {
    var begin, result, list, commit := BeginEdit(session, s.t.content), RecordResult(s.t.version), ListMaterials(session), CommitEdit(session, now);
    var s1 := After(s, begin);
    var s2 := After(s1, result);
    var s3 := After(s2, list);
    assert Rendered(s.t.content, map[]) == map[];
    var states, steps := [s, s1, s2, s3, After(s3, commit)], [begin, result, list, commit];
    assert Run(states, steps);
  }

  // ---------------------------------------------------------------- the transaction

  lemma RewriteOneMore(issued: map<Id, Issued>, confs: map<Id, Conf>, left: set<Id>, c: Id)
    requires c in left && c in confs
    ensures var done := Rewritten(issued, confs - left);
            Rewritten(issued, confs - (left - {c})) ==
            if c in done && !done[c].deleted then done[c := done[c].(conf := confs[c])] else done
  {
  }

  class NodeTables {
    var t: Tables

    constructor (t: Tables)
      ensures this.t == t
    {
      this.t := t;
    }

    /** `UpdateAmneziaWGNodeConfig`: the guarded update, the count of materials, and the rewritten configurations. */
    method UpdateNodeConfig(content: Content, version: int, applied: int, expected: int, confs: map<Id, Conf>) returns (ok: bool)
      modifies this
      ensures ok <==> CanUpdate(old(t), expected, confs)
      ensures t == if ok then Updated(old(t), content, version, applied, confs) else old(t)
    {
      if t.version != expected {
        return false;
      }
      if |t.materials| != |confs| {
        return false;
      }
      var left, issued := confs.Keys, t.issued;
      while left != {}
        invariant left <= confs.Keys && t == old(t)
        invariant issued == Rewritten(t.issued, confs - left)
        decreases left
      {
        var c :| c in left;
        RewriteOneMore(t.issued, confs, left, c);
        left := left - {c};
        if c in issued && !issued[c].deleted {
          issued := issued[c := issued[c].(conf := confs[c])];
        }
      }
      assert confs - left == confs;
      t := t.(version := version, content := content, applied := applied, issued := issued);
      return true;
    }
  }
}
