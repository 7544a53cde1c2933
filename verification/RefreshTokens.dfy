/**
 * Sessions and their refresh tokens: a token is rotated into its successor, a recently rotated one
 * is tolerated, and presenting any other ends the session and its whole family of tokens.
 */
module RefreshTokens {
  import opened Ids
  import opened Wrappers

  datatype TokenStatus = Active | Rotated | Revoked | Reused

  /** A refresh token, stored under its hash. */
  datatype Token = Token(session: Id, identity: Id, family: Id, status: TokenStatus, rotatedAt: int, expires: int, absolute: int)

  /** A session; an empty refresh hash means that it was created without a refresh token. */
  datatype Session = Session(identity: Id, active: bool, refreshHash: string, absolute: int)

  datatype Auth = Auth(sessions: map<Id, Session>, tokens: map<string, Token>)

  datatype Answer = Fresh(token: Token) | Grace(current: string) | NotFound

  // ---------------------------------------------------------------- operations

  predicate CanCreate(a: Auth, id: Id, s: Session, family: Id) {
    && id !in a.sessions && s.active
    && (s.refreshHash != "" ==> s.refreshHash !in a.tokens && forall h :: h in a.tokens ==> a.tokens[h].family != family)
  }

  function Created(a: Auth, id: Id, s: Session, family: Id, expires: int): Auth {
    Auth(a.sessions[id := s],
         if s.refreshHash == "" then a.tokens
         else a.tokens[s.refreshHash := Token(id, s.identity, family, Active, 0, expires, s.absolute)])
  }

  /** The update of the active tokens of a session. */
  function StraysRevoked(tokens: map<string, Token>, session: Id): map<string, Token> {
    map h | h in tokens :: if tokens[h].session == session && tokens[h].status.Active? then tokens[h].(status := Revoked) else tokens[h]
  }

  /** The update of a whole family. */
  function FamilyRevoked(tokens: map<string, Token>, family: Id, reused: string): map<string, Token> {
    map h | h in tokens :: if tokens[h].family == family then tokens[h].(status := if h == reused then Reused else Revoked) else tokens[h]
  }

  /** The presented token becomes rotated, stray active ones of the session are revoked, and the successor is active. */
  function Successor(a: Auth, old_: string, hash: string, now: int, expires: int): Auth
    requires old_ in a.tokens && a.tokens[old_].session in a.sessions
  {
    var t := a.tokens[old_];
    var rotated := a.tokens[old_ := t.(status := Rotated, rotatedAt := now)];
    Auth(a.sessions[t.session := a.sessions[t.session].(refreshHash := hash)],
         StraysRevoked(rotated, t.session)[hash := Token(t.session, a.sessions[t.session].identity, t.family, Active, 0, expires, t.absolute)])
  }

  function Ended(a: Auth, old_: string): Auth
    requires old_ in a.tokens && a.tokens[old_].session in a.sessions
  {
    var t := a.tokens[old_];
    Auth(a.sessions[t.session := a.sessions[t.session].(active := false)],
         FamilyRevoked(a.tokens, t.family, old_))
  }

  predicate InGrace(t: Token, now: int, grace: int) {
    t.status.Rotated? && now <= t.rotatedAt + grace
  }

  function Revoke(a: Auth, identity: Id, keep: Option<Id>): Auth {
    Auth(map s | s in a.sessions ::
           if a.sessions[s].identity == identity && keep != Some(s) then a.sessions[s].(active := false) else a.sessions[s],
         map h | h in a.tokens ::
           if a.tokens[h].identity == identity && keep != Some(a.tokens[h].session) && (a.tokens[h].status.Active? || a.tokens[h].status.Rotated?)
           then a.tokens[h].(status := Revoked) else a.tokens[h])
  }

  /** `RotateAuthRefreshToken`; the successor's hash must be new, or the insert is refused and all is undone. */
  function Presented(a: Auth, old_: string, hash: string, now: int, expires: int, grace: int): Auth {
    if old_ !in a.tokens || a.tokens[old_].session !in a.sessions || !a.sessions[a.tokens[old_].session].active then a
    else if a.tokens[old_].status.Active? then (if hash in a.tokens then a else Successor(a, old_, hash, now, expires))
    else if InGrace(a.tokens[old_], now, grace) then a
    else Ended(a, old_)
  }

  // ---------------------------------------------------------------- the family invariant

  /** Tokens belong to their session: same identity, one family, one absolute expiry. */
  ghost predicate Belongs(a: Auth, h: string)
    requires h in a.tokens
  {
    var t := a.tokens[h];
    t.session in a.sessions && t.identity == a.sessions[t.session].identity && t.absolute == a.sessions[t.session].absolute
  }

  ghost predicate AllBelong(a: Auth) {
    forall h :: h in a.tokens ==> Belongs(a, h)
  }

  /** Two tokens are of one family exactly if they are of one session. */
  ghost predicate Kin(tokens: map<string, Token>) {
    forall h, k :: h in tokens && k in tokens ==> (tokens[h].family == tokens[k].family <==> tokens[h].session == tokens[k].session)
  }

  /** A token is active exactly if it is the one that its active session points to. */
  ghost predicate ActiveIffCurrent(a: Auth) {
    && (forall h :: h in a.tokens && a.tokens[h].session in a.sessions ==>
          (a.tokens[h].status.Active? <==>
             a.sessions[a.tokens[h].session].active && a.sessions[a.tokens[h].session].refreshHash == h))
    && (forall s :: s in a.sessions && a.sessions[s].refreshHash != "" ==>
          a.sessions[s].refreshHash in a.tokens && a.tokens[a.sessions[s].refreshHash].session == s)
  }

  /** A session that has tokens points to one. */
  ghost predicate Pointed(a: Auth) {
    forall h :: h in a.tokens && a.tokens[h].session in a.sessions ==> a.sessions[a.tokens[h].session].refreshHash != ""
  }

  ghost predicate Inv(a: Auth) {
    AllBelong(a) && Kin(a.tokens) && ActiveIffCurrent(a) && Pointed(a) && "" !in a.tokens
  }

  /** An active session with a refresh token has exactly one active token, a deleted session has none. */
  lemma ExactlyOneActive(a: Auth, s: Id)
    requires Inv(a) && s in a.sessions
    ensures a.sessions[s].active && a.sessions[s].refreshHash != "" ==>
              (set h | h in a.tokens && a.tokens[h].session == s && a.tokens[h].status.Active?) == {a.sessions[s].refreshHash}
    ensures !a.sessions[s].active ==> (set h | h in a.tokens && a.tokens[h].session == s && a.tokens[h].status.Active?) == {}
  {
    if a.sessions[s].active && a.sessions[s].refreshHash != "" {
      var h := a.sessions[s].refreshHash;
      assert h in a.tokens && a.tokens[h].session == s;
    }
  }

  // ---------------------------------------------------------------- every step, every run

  datatype Step =
    | Create(id: Id, session: Session, family: Id, expires: int)
    | Present(token: string, hash: string, now: int, expires: int, grace: int)
    | RevokeAll(identity: Id, keep: Option<Id>)

  predicate Enabled(a: Auth, step: Step) {
    match step
    case Create(id, session, family, _) => CanCreate(a, id, session, family)
    case Present(_, hash, _, _, _) => hash != ""
    case RevokeAll(_, _) => true
  }

  function After(a: Auth, step: Step): Auth {
    match step
    case Create(id, session, family, expires) => Created(a, id, session, family, expires)
    case Present(token, hash, now, expires, grace) => Presented(a, token, hash, now, expires, grace)
    case RevokeAll(identity, keep) => Revoke(a, identity, keep)
  }

  ghost predicate Run(states: seq<Auth>, steps: seq<Step>) {
    && |states| == |steps| + 1 && states[0] == Auth(map[], map[])
    && forall i :: 0 <= i < |steps| ==> Enabled(states[i], steps[i]) && states[i + 1] == After(states[i], steps[i])
  }

  /** Families survive when every token is a known one or a relative of one. */
  lemma KinKept(tokens: map<string, Token>, tokens': map<string, Token>, parent: map<string, string>)
    requires Kin(tokens)
    requires forall h :: h in tokens' ==> h in parent && parent[h] in tokens
    requires forall h :: h in tokens' ==> tokens'[h].family == tokens[parent[h]].family && tokens'[h].session == tokens[parent[h]].session
    ensures Kin(tokens')
  {
  }

  function Same(tokens: map<string, Token>): map<string, string> {
    map h | h in tokens :: h
  }

  lemma CreateKeeps(a: Auth, id: Id, s: Session, family: Id, expires: int)
    requires Inv(a) && CanCreate(a, id, s, family)
    ensures Inv(Created(a, id, s, family, expires))
  {
    CreateKeepsKin(a, id, s, family, expires);
    CreateIsCurrent(a, id, s, family, expires);
  }

  lemma CreateKeepsKin(a: Auth, id: Id, s: Session, family: Id, expires: int)
    requires AllBelong(a) && Kin(a.tokens) && CanCreate(a, id, s, family)
    ensures AllBelong(Created(a, id, s, family, expires)) && Kin(Created(a, id, s, family, expires).tokens)
  {
    var b := Created(a, id, s, family, expires);
    forall h | h in a.tokens ensures a.tokens[h].session != id && Belongs(b, h) {
      assert Belongs(a, h);
    }
  }

  lemma CreateIsCurrent(a: Auth, id: Id, s: Session, family: Id, expires: int)
    requires AllBelong(a) && ActiveIffCurrent(a) && CanCreate(a, id, s, family)
    ensures ActiveIffCurrent(Created(a, id, s, family, expires))
  {
    forall h | h in a.tokens ensures a.tokens[h].session != id {
      assert Belongs(a, h);
    }
  }

  lemma SuccessorKeeps(a: Auth, old_: string, hash: string, now: int, expires: int)
    requires Inv(a) && old_ in a.tokens && a.tokens[old_].session in a.sessions && a.sessions[a.tokens[old_].session].active
    requires a.tokens[old_].status.Active? && hash !in a.tokens && hash != ""
    ensures Inv(Successor(a, old_, hash, now, expires))
  {
    SuccessorBelongs(a, old_, hash, now, expires);
    SuccessorIsCurrent(a, old_, hash, now, expires);
    SuccessorIsPointed(a, old_, hash, now, expires);
    SuccessorIsKin(a, old_, hash, now, expires);
  }

  lemma SuccessorIsKin(a: Auth, old_: string, hash: string, now: int, expires: int)
    requires Kin(a.tokens) && old_ in a.tokens && a.tokens[old_].session in a.sessions
    ensures Kin(Successor(a, old_, hash, now, expires).tokens)
  {
    KinKept(a.tokens, Successor(a, old_, hash, now, expires).tokens, Same(a.tokens)[hash := old_]);
  }

  lemma SuccessorBelongs(a: Auth, old_: string, hash: string, now: int, expires: int)
    requires AllBelong(a) && old_ in a.tokens && a.tokens[old_].session in a.sessions
    ensures AllBelong(Successor(a, old_, hash, now, expires))
  {
    var b := Successor(a, old_, hash, now, expires);
    forall h | h in b.tokens ensures Belongs(b, h) {
      assert Belongs(a, old_);
      if h != hash { assert Belongs(a, h); }
    }
  }

  lemma SuccessorIsPointed(a: Auth, old_: string, hash: string, now: int, expires: int)
    requires Pointed(a) && old_ in a.tokens && a.tokens[old_].session in a.sessions && hash != ""
    ensures Pointed(Successor(a, old_, hash, now, expires))
  {
  }

  lemma SuccessorIsCurrent(a: Auth, old_: string, hash: string, now: int, expires: int)
    requires ActiveIffCurrent(a) && old_ in a.tokens && a.tokens[old_].session in a.sessions && a.sessions[a.tokens[old_].session].active
    requires a.tokens[old_].status.Active? && hash !in a.tokens && hash != ""
    ensures ActiveIffCurrent(Successor(a, old_, hash, now, expires))
  {
    var b, s := Successor(a, old_, hash, now, expires), a.tokens[old_].session;
    forall h | h in b.tokens && b.tokens[h].session in b.sessions
      ensures b.tokens[h].status.Active? <==> b.sessions[b.tokens[h].session].active && b.sessions[b.tokens[h].session].refreshHash == h
    {
      if h != hash { assert h in a.tokens && b.tokens[h].session == a.tokens[h].session; }
    }
  }

  lemma EndedKeeps(a: Auth, old_: string)
    requires Inv(a) && old_ in a.tokens && a.tokens[old_].session in a.sessions
    ensures Inv(Ended(a, old_))
  {
    EndedKeepsBelonging(a, old_);
    EndedKeepsCurrent(a, old_);
    KinKept(a.tokens, Ended(a, old_).tokens, Same(a.tokens));
  }

  lemma EndedKeepsBelonging(a: Auth, old_: string)
    requires AllBelong(a) && old_ in a.tokens && a.tokens[old_].session in a.sessions
    ensures AllBelong(Ended(a, old_))
  {
    var b := Ended(a, old_);
    forall h | h in b.tokens ensures Belongs(b, h) {
      assert Belongs(a, h);
    }
  }

  lemma EndedKeepsCurrent(a: Auth, old_: string)
    requires Kin(a.tokens) && ActiveIffCurrent(a) && old_ in a.tokens && a.tokens[old_].session in a.sessions
    ensures ActiveIffCurrent(Ended(a, old_))
  {
  }

  lemma RevokeKeeps(a: Auth, identity: Id, keep: Option<Id>)
    requires Inv(a)
    ensures Inv(Revoke(a, identity, keep))
  {
    RevokeKeepsBelonging(a, identity, keep);
    RevokeKeepsCurrent(a, identity, keep);
    RevokeKeepsPointed(a, identity, keep);
    RevokeKeepsKin(a, identity, keep);
  }

  lemma RevokeKeepsKin(a: Auth, identity: Id, keep: Option<Id>)
    requires Kin(a.tokens)
    ensures Kin(Revoke(a, identity, keep).tokens)
  {
    KinKept(a.tokens, Revoke(a, identity, keep).tokens, Same(a.tokens));
  }

  lemma RevokeKeepsBelonging(a: Auth, identity: Id, keep: Option<Id>)
    requires AllBelong(a)
    ensures AllBelong(Revoke(a, identity, keep))
  {
    var b := Revoke(a, identity, keep);
    forall h | h in b.tokens ensures Belongs(b, h) {
      assert Belongs(a, h);
    }
  }

  lemma RevokeKeepsPointed(a: Auth, identity: Id, keep: Option<Id>)
    requires Pointed(a)
    ensures Pointed(Revoke(a, identity, keep))
  {
  }

  lemma RevokeKeepsCurrent(a: Auth, identity: Id, keep: Option<Id>)
    requires ActiveIffCurrent(a) && AllBelong(a)
    ensures ActiveIffCurrent(Revoke(a, identity, keep))
  {
    var b := Revoke(a, identity, keep);
    forall h | h in b.tokens && b.tokens[h].session in b.sessions
      ensures b.tokens[h].status.Active? <==> b.sessions[b.tokens[h].session].active && b.sessions[b.tokens[h].session].refreshHash == h
    {
      assert Belongs(a, h);
    }
  }

  lemma StepKeepsInv(a: Auth, step: Step)
    requires Inv(a) && Enabled(a, step)
    ensures Inv(After(a, step))
  {
    match step
    case Create(id, session, family, expires) => CreateKeeps(a, id, session, family, expires);
    case Present(token, hash, now, expires, grace) =>
      if After(a, step) != a {
        if a.tokens[token].status.Active? {
          SuccessorKeeps(a, token, hash, now, expires);
        } else {
          EndedKeeps(a, token);
        }
      }
    case RevokeAll(identity, keep) => RevokeKeeps(a, identity, keep);
  }

  lemma {:induction false} FamilyInvariant(states: seq<Auth>, steps: seq<Step>, n: nat)
    requires Run(states, steps) && n <= |steps|
    ensures Inv(states[n])
  {
    if n > 0 {
      FamilyInvariant(states, steps, n - 1);
      assert Enabled(states[n - 1], steps[n - 1]);
      StepKeepsInv(states[n - 1], steps[n - 1]);
    }
  }

  /** A session's absolute expiry and identity are fixed, and a deleted session stays deleted. */
  ghost predicate Continues(s: Session, s': Session) {
    s'.absolute == s.absolute && s'.identity == s.identity && (!s.active ==> !s'.active)
  }

  lemma StepContinues(a: Auth, step: Step, s: Id)
    requires Inv(a) && Enabled(a, step) && s in a.sessions
    ensures s in After(a, step).sessions && Continues(a.sessions[s], After(a, step).sessions[s])
  {
  }

  lemma {:induction false} SessionContinues(states: seq<Auth>, steps: seq<Step>, i: nat, j: nat, s: Id)
    requires Run(states, steps) && i <= j <= |steps| && s in states[i].sessions
    ensures s in states[j].sessions && Continues(states[i].sessions[s], states[j].sessions[s])
    decreases j
  {
    if i < j {
      SessionContinues(states, steps, i, j - 1, s);
      FamilyInvariant(states, steps, j - 1);
      assert Enabled(states[j - 1], steps[j - 1]);
      StepContinues(states[j - 1], steps[j - 1], s);
    }
  }

  /**
   * Presenting a rotated token after the grace window ends its session for good: from then on the session
   * is deleted and none of its tokens is ever active again.
   */
  lemma ReuseEndsTheFamily(states: seq<Auth>, steps: seq<Step>, i: nat, j: nat)
    requires Run(states, steps) && i < j <= |steps| && steps[i].Present? && steps[i].token in states[i].tokens
    requires var t := states[i].tokens[steps[i].token];
             t.status.Rotated? && steps[i].now > t.rotatedAt + steps[i].grace
    ensures var s := states[i].tokens[steps[i].token].session;
            && s in states[j].sessions && !states[j].sessions[s].active
            && forall h :: h in states[j].tokens && states[j].tokens[h].session == s ==> !states[j].tokens[h].status.Active?
  {
    var s := states[i].tokens[steps[i].token].session;
    FamilyInvariant(states, steps, i);
    assert Belongs(states[i], steps[i].token);
    assert Enabled(states[i], steps[i]) && states[i + 1] == After(states[i], steps[i]);
    SessionContinues(states, steps, i + 1, j, s);
    FamilyInvariant(states, steps, j);
  }

  /** An active session is rotated only by its current token; any other of its tokens never yields a new one. */
  lemma OnlyTheCurrentTokenRotates(a: Auth, token: string, hash: string, now: int, expires: int, grace: int)
    requires Inv(a) && token in a.tokens && hash !in a.tokens && hash != ""
    ensures var s := a.tokens[token].session;
            hash in Presented(a, token, hash, now, expires, grace).tokens <==> a.sessions[s].active && a.sessions[s].refreshHash == token
  {
    assert Belongs(a, token);
  }

  /** Revoking an identity ends exactly its sessions, except the one to keep, with their tokens. */
  lemma RevokeEndsExactly(a: Auth, identity: Id, keep: Option<Id>, h: string)
    requires Inv(a) && h in a.tokens
    ensures Enabled(a, RevokeAll(identity, keep))
    ensures var s, b := a.tokens[h].session, Revoke(a, identity, keep);
            && (b.tokens[h].status.Active? <==> a.tokens[h].status.Active? && (a.sessions[s].identity != identity || keep == Some(s)))
            && (b.sessions[s].active <==> a.sessions[s].active && (a.sessions[s].identity != identity || keep == Some(s)))
            && (keep == Some(s) ==> b.tokens[h] == a.tokens[h] && b.sessions[s] == a.sessions[s])
            && b.tokens[h] == a.tokens[h].(status := b.tokens[h].status) && b.sessions[s] == a.sessions[s].(active := b.sessions[s].active)
            && b.tokens[h].status == if a.sessions[s].identity == identity && keep != Some(s) && a.tokens[h].status in {Active, Rotated}
                                     then Revoked else a.tokens[h].status
  {
    assert Belongs(a, h);
  }

  /** A new session changes nothing else; its first token is active and carries the session's data. */
  lemma CreateAddsOnly(a: Auth, id: Id, session: Session, family: Id, expires: int)
    requires Inv(a) && Enabled(a, Create(id, session, family, expires))
    ensures var b := After(a, Create(id, session, family, expires));
            && b.sessions.Keys == a.sessions.Keys + {id} && b.sessions[id] == session
            && (forall s :: s in a.sessions ==> b.sessions[s] == a.sessions[s]) && (forall h :: h in a.tokens ==> h in b.tokens && b.tokens[h] == a.tokens[h])
            && b.tokens.Keys == a.tokens.Keys + (if session.refreshHash == "" then {} else {session.refreshHash})
            && (session.refreshHash != "" ==>
                  var t := b.tokens[session.refreshHash];
                  && t.session == id && t.identity == session.identity && t.family == family && t.status.Active?
                  && t.expires == expires && t.absolute == session.absolute)
  {
  }

  /** A rotation changes the presented token, adds its successor, makes that the session's current one, and leaves all else alone. */
  lemma RotationChangesOnly(a: Auth, token: string, hash: string, now: int, expires: int, grace: int)
    requires Inv(a) && token in a.tokens && hash !in a.tokens && hash != ""
    requires var s := a.tokens[token].session; s in a.sessions && a.sessions[s].active && a.sessions[s].refreshHash == token
    ensures Enabled(a, Present(token, hash, now, expires, grace))
    ensures var b, t := After(a, Present(token, hash, now, expires, grace)), a.tokens[token];
            && b.tokens.Keys == a.tokens.Keys + {hash} && b.sessions.Keys == a.sessions.Keys
            && b.tokens[token] == t.(status := Rotated, rotatedAt := now)
            && b.tokens[hash].status.Active? && b.tokens[hash].session == t.session && b.tokens[hash].identity == t.identity
            && b.tokens[hash].family == t.family && b.tokens[hash].expires == expires && b.tokens[hash].absolute == t.absolute
            && b.sessions[t.session] == a.sessions[t.session].(refreshHash := hash)
            && (forall h :: h in a.tokens && h != token ==> b.tokens[h] == a.tokens[h])
            && (forall s :: s in a.sessions && s != t.session ==> b.sessions[s] == a.sessions[s])
  {
    assert Belongs(a, token);
    ExactlyOneActive(a, a.tokens[token].session);
    forall h | h in a.tokens && h != token && a.tokens[h].session == a.tokens[token].session ensures !a.tokens[h].status.Active? {
    }
  }

  /** From any state whatsoever, strays included, a rotation leaves the successor as the one active token of its session. */
  lemma RotationLeavesOneActive(a: Auth, token: string, hash: string, now: int, expires: int, grace: int, h: string)
    requires token in a.tokens && a.tokens[token].status.Active? && hash !in a.tokens
    requires a.tokens[token].session in a.sessions && a.sessions[a.tokens[token].session].active
    requires h in a.tokens && h != token
    ensures var b := After(a, Present(token, hash, now, expires, grace));
            && hash in b.tokens && b.tokens[hash].status.Active? && token in b.tokens && b.tokens[token].status.Rotated?
            && h in b.tokens
            && (if a.tokens[h].session == a.tokens[token].session && a.tokens[h].status.Active?
                then b.tokens[h] == a.tokens[h].(status := Revoked) else b.tokens[h] == a.tokens[h])
  {
  }

  /** Reuse marks the presented token, revokes the rest of its family, ends its session, and leaves all others alone. */
  lemma ReuseEndsOnly(a: Auth, token: string, hash: string, now: int, expires: int, grace: int)
    requires Inv(a) && token in a.tokens && !a.tokens[token].status.Active? && !(a.tokens[token].status.Rotated? && now - a.tokens[token].rotatedAt <= grace)
    requires var s := a.tokens[token].session; s in a.sessions && a.sessions[s].active
    ensures var b, t := After(a, Present(token, hash, now, expires, grace)), a.tokens[token];
            && b.tokens.Keys == a.tokens.Keys && b.sessions.Keys == a.sessions.Keys
            && b.tokens[token] == t.(status := Reused) && b.sessions[t.session] == a.sessions[t.session].(active := false)
            && (forall h :: h in a.tokens && h != token ==>
                  b.tokens[h] == if a.tokens[h].session == t.session then a.tokens[h].(status := Revoked) else a.tokens[h])
            && (forall s :: s in a.sessions && s != t.session ==> b.sessions[s] == a.sessions[s])
  {
  }

  // ---------------------------------------------------------------- rotation and grace over runs

  /** The step rotates the token: it was active and is rotated, at the time of the step. */
  ghost predicate Rotates(states: seq<Auth>, steps: seq<Step>, i: nat, h: string) {
    && i < |steps| && i + 1 < |states| && steps[i].Present? && steps[i].token == h
    && h in states[i].tokens && states[i].tokens[h].status.Active?
    && h in states[i + 1].tokens && states[i + 1].tokens[h] == states[i].tokens[h].(status := Rotated, rotatedAt := steps[i].now)
  }

  /** A token that is rotated after a step was rotated by it, or has been since before. */
  lemma RotatedStep(a: Auth, step: Step, h: string)
    requires Enabled(a, step) && h in After(a, step).tokens && After(a, step).tokens[h].status.Rotated?
    ensures h in a.tokens
    ensures || After(a, step).tokens[h] == a.tokens[h]
            || (step.Present? && step.token == h && a.tokens[h].status.Active?
                && After(a, step).tokens[h] == a.tokens[h].(status := Rotated, rotatedAt := step.now))
  {
  }

  /** Over every run, a rotated token was rotated by the presentation of it at the time that it is marked with. */
  lemma {:induction false} RotatedWhenPresented(states: seq<Auth>, steps: seq<Step>, n: nat, h: string)
    requires Run(states, steps) && n <= |steps| && h in states[n].tokens && states[n].tokens[h].status.Rotated?
    ensures exists i :: 0 <= i < n && Rotates(states, steps, i, h) && steps[i].now == states[n].tokens[h].rotatedAt
  {
    assert n > 0;
    assert Enabled(states[n - 1], steps[n - 1]) && states[n] == After(states[n - 1], steps[n - 1]);
    RotatedStep(states[n - 1], steps[n - 1], h);
    if states[n].tokens[h] == states[n - 1].tokens[h] {
      RotatedWhenPresented(states, steps, n - 1, h);
    } else {
      assert Rotates(states, steps, n - 1, h);
    }
  }

  /** Until it is used up or revoked, a rotated token keeps the time of its rotation. */
  lemma {:induction false} RotationTimeStays(states: seq<Auth>, steps: seq<Step>, i: nat, j: nat, h: string)
    requires Run(states, steps) && i < j <= |steps| && Rotates(states, steps, i, h)
    ensures h in states[j].tokens && states[j].tokens[h].rotatedAt == steps[i].now && !states[j].tokens[h].status.Active?
    decreases j
  {
    if i + 1 < j {
      RotationTimeStays(states, steps, i, j - 1, h);
      assert Enabled(states[j - 1], steps[j - 1]) && states[j] == After(states[j - 1], steps[j - 1]);
    }
  }

  /**
   * What a presentation is answered with: the successor for the current token of an active session, that session's
   * current token for one that was rotated within the grace, and nothing otherwise.
   */
  function AnswerTo(a: Auth, old_: string, hash: string, now: int, expires: int, grace: int): Answer {
    if old_ !in a.tokens || a.tokens[old_].session !in a.sessions then NotFound
    else
      var t, s := a.tokens[old_], a.sessions[a.tokens[old_].session];
      if !s.active then NotFound
      else if s.refreshHash == old_ then
        if hash in a.tokens then NotFound else Fresh(Token(t.session, s.identity, t.family, Active, 0, expires, s.absolute))
      else if t.status.Rotated? && now - t.rotatedAt <= grace then Grace(s.refreshHash)
      else NotFound
  }

  /**
   * Over every run: a token that was rotated at one step and is presented again, while it is still only rotated and
   * its session active, is tolerated exactly if no more than the grace has passed since. Then nothing changes and the
   * answer is the session's current token; otherwise the session ends.
   */
  lemma GraceIff(states: seq<Auth>, steps: seq<Step>, i: nat, j: nat, h: string)
    requires Run(states, steps) && i < j < |steps| && Rotates(states, steps, i, h) && steps[j].Present? && steps[j].token == h
    requires h in states[j].tokens && states[j].tokens[h].status.Rotated?
    requires var s := states[j].tokens[h].session; s in states[j].sessions && states[j].sessions[s].active
    ensures var p, s := steps[j], states[j].tokens[h].session;
            && (AnswerTo(states[j], h, p.hash, p.now, p.expires, p.grace) == Grace(states[j].sessions[s].refreshHash) <==> p.now <= steps[i].now + p.grace)
            && (p.now <= steps[i].now + p.grace ==> states[j + 1] == states[j])
            && (p.now > steps[i].now + p.grace ==> s in states[j + 1].sessions && !states[j + 1].sessions[s].active)
  {
    FamilyInvariant(states, steps, j);
    RotationTimeStays(states, steps, i, j, h);
    assert Enabled(states[j], steps[j]) && states[j + 1] == After(states[j], steps[j]);
  }

  // ---------------------------------------------------------------- the transactions

  class AuthStore {
    var auth: Auth

    constructor ()
      ensures Valid() && auth == Auth(map[], map[])
    {
      auth := Auth(map[], map[]);
    }

    ghost predicate Valid()
      reads this
    {
      Inv(auth)
    }

    /** `CreateAuthSession`: the session and its first token, or neither; `refuses` says that the database refuses a statement. */
    method CreateSession(id: Id, s: Session, family: Id, expires: int, refuses: bool) returns (ok: bool)
      requires Valid() && s.active && forall h :: h in auth.tokens ==> auth.tokens[h].family != family
      modifies this
      ensures Valid()
      ensures ok <==> !refuses && Enabled(old(auth), Create(id, s, family, expires))
      ensures auth == if ok then After(old(auth), Create(id, s, family, expires)) else old(auth)
    {
      if id in auth.sessions || (s.refreshHash != "" && s.refreshHash in auth.tokens) {
        return false;
      }
      CreateKeeps(auth, id, s, family, expires);
      var tokens := auth.tokens;
      if s.refreshHash != "" {
        tokens := tokens[s.refreshHash := Token(id, s.identity, family, Active, 0, expires, s.absolute)];
      }
      if refuses { return false; }
      auth := Auth(auth.sessions[id := s], tokens);
      return true;
    }

    /**
     * `RotateAuthRefreshToken`, statement by statement. If the database refuses one, the tables are as they were;
     * otherwise the tables and the answer are exactly those of the presentation.
     */
    method Rotate(old_: string, hash: string, now: int, expires: int, grace: int, refuses: bool) returns (r: Answer)
      requires Valid() && hash != ""
      modifies this
      ensures Valid()
      ensures auth == if refuses then old(auth) else Presented(old(auth), old_, hash, now, expires, grace)
      ensures r == if refuses then NotFound else AnswerTo(old(auth), old_, hash, now, expires, grace)
    {
      if old_ !in auth.tokens {
        return NotFound;
      }
      var t := auth.tokens[old_];
      assert Belongs(auth, old_);
      if !auth.sessions[t.session].active {
        return NotFound;
      }
      if t.status.Active? {
        r := Succeed(old_, hash, now, expires, refuses);
      } else if InGrace(t, now, grace) {
        r := Tolerate(old_, refuses);
      } else {
        EndFamily(old_, refuses);
        r := NotFound;
      }
    }

    /** The branch of the current token. */
    method Succeed(old_: string, hash: string, now: int, expires: int, refuses: bool) returns (r: Answer)
      requires Valid() && hash != "" && old_ in auth.tokens && auth.tokens[old_].session in auth.sessions
      requires auth.sessions[auth.tokens[old_].session].active && auth.tokens[old_].status.Active?
      modifies this
      ensures Valid()
      ensures refuses || hash in old(auth).tokens ==> r == NotFound && auth == old(auth)
      ensures !refuses && hash !in old(auth).tokens ==>
                && auth == Successor(old(auth), old_, hash, now, expires)
                && r == Fresh(auth.tokens[hash])
    {
      var t := auth.tokens[old_];
      var tokens := auth.tokens[old_ := t.(status := Rotated, rotatedAt := now)];
      tokens := StraysRevoked(tokens, t.session);
      var sessions := auth.sessions[t.session := auth.sessions[t.session].(refreshHash := hash)];
      if hash in tokens {
        return NotFound;
      }
      SuccessorKeeps(auth, old_, hash, now, expires);
      var successor := Token(t.session, auth.sessions[t.session].identity, t.family, Active, 0, expires, t.absolute);
      tokens := tokens[hash := successor];
      if refuses { return NotFound; }
      auth := Auth(sessions, tokens);
      return Fresh(successor);
    }

    /** The branch of a token within its grace. */
    method Tolerate(old_: string, refuses: bool) returns (r: Answer)
      requires Valid() && old_ in auth.tokens && auth.tokens[old_].session in auth.sessions && auth.sessions[auth.tokens[old_].session].active
      ensures r == if refuses then NotFound else Grace(auth.sessions[auth.tokens[old_].session].refreshHash)
    {
      var session := auth.tokens[old_].session;
      ExactlyOneActive(auth, session);
      var current := set h | h in auth.tokens && auth.tokens[h].session == session && auth.tokens[h].status.Active?;
      var h :| h in current;
      if refuses { return NotFound; }
      return Grace(h);
    }

    /** The branch of any other token. */
    method EndFamily(old_: string, refuses: bool)
      requires Valid() && old_ in auth.tokens && auth.tokens[old_].session in auth.sessions
      modifies this
      ensures Valid() && auth == if refuses then old(auth) else Ended(old(auth), old_)
    {
      EndedKeeps(auth, old_);
      var t := auth.tokens[old_];
      var tokens := FamilyRevoked(auth.tokens, t.family, old_);
      if refuses { return; }
      auth := Auth(auth.sessions[t.session := auth.sessions[t.session].(active := false)], tokens);
    }
  }
}
