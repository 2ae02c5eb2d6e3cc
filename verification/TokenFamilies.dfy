/** What every run of logins, rotations, revocations and logouts keeps. */
module TokenFamilies {
  import opened Options
  import opened TokenStore

  datatype Step =
    | Login(drawn: Drawn, user: string, now: real)
    | Rotation(presented: Presented, now: real)
    | RevokeOne(token: string)
    | RevokeAll(session: string)
    | Logout(user: string)
    | Limit(user: string, maxSessions: int, oldestFirst: seq<string>)

  /** Identifiers and secrets drawn at random have not been seen before. */
  predicate DrawnFresh(db: Db, d: Drawn) {
    && d.token !in db.tokens
    && d.session !in db.sessions
    && (forall id :: id in db.tokens ==> db.tokens[id].family != d.family)
    && (forall s :: s in db.sessions ==> db.sessions[s].family != d.family)
  }

  /** One step; what was drawn or answered contrary to its meaning does not happen. */
  function Apply(db: Db, step: Step): Db {
    match step
    case Login(d, user, now) => if DrawnFresh(db, d) then CreateSession(db, d, user, now) else db
    case Rotation(p, now) => if p.newId in db.tokens then db else RotateRefreshToken(db, p, now).db
    case RevokeOne(id) => Db(RevokeToken(db.tokens, id), db.sessions)
    case RevokeAll(id) => RevokeSession(db, id)
    case Logout(user) => GlobalLogout(db, user)
    case Limit(user, maxSessions, oldestFirst) =>
      if IsOldestFirst(db, user, oldestFirst) then EnforceLimit(db, oldestFirst, maxSessions) else db
  }

  /** The token a step uses up, if it is a rotation that succeeds. */
  function Consumes(db: Db, step: Step): Option<string> {
    if step.Rotation? && step.presented.newId !in db.tokens &&
       RotateRefreshToken(db, step.presented, step.now).issued.Some?
    then Some(step.presented.id) else None
  }

  function Run(db: Db, steps: seq<Step>): Db
    decreases |steps|
  {
    if steps == [] then db else Run(Apply(db, steps[0]), steps[1..])
  }

  /** The tokens used up along a run, in order. */
  function Consumed(db: Db, steps: seq<Step>): seq<string>
    decreases |steps|
  {
    if steps == [] then []
    else
      var rest := Consumed(Apply(db, steps[0]), steps[1..]);
      match Consumes(db, steps[0])
      case None => rest
      case Some(id) => [id] + rest
  }

  const EMPTY := Db(map[], map[])

  // Token families.

  predicate SameFamily(tokens: map<string, Token>, s: string, t: string) {
    s in tokens && t in tokens && tokens[s].family == tokens[t].family
  }

  /** Generations of a family are 1..n, each once, and only the newest may be active. */
  ghost predicate Chained(tokens: map<string, Token>) {
    && (forall s, t :: SameFamily(tokens, s, t) && tokens[s].generation == tokens[t].generation ==> s == t)
    && (forall s, t :: SameFamily(tokens, s, t) && tokens[s].status == Active ==>
         tokens[t].generation <= tokens[s].generation)
    && (forall t :: t in tokens ==> tokens[t].generation >= 1)
    && (forall t :: t in tokens && tokens[t].generation > 1 ==>
         HasGeneration(tokens, tokens[t].family, tokens[t].generation - 1))
  }

  ghost predicate HasGeneration(tokens: map<string, Token>, family: string, generation: nat) {
    exists s :: s in tokens && tokens[s].family == family && tokens[s].generation == generation
  }

  /** Nothing about who the tokens are has changed, and nothing became active. */
  ghost predicate OnlyRevoked(before: map<string, Token>, after: map<string, Token>) {
    && after.Keys == before.Keys
    && forall t :: t in before ==>
         && after[t].family == before[t].family && after[t].generation == before[t].generation
         && (after[t].status == Active ==> before[t].status == Active)
  }

  lemma RevokingKeepsChained(before: map<string, Token>, after: map<string, Token>)
    requires Chained(before) && OnlyRevoked(before, after)
    ensures Chained(after)
  {
    forall t | t in after && after[t].generation > 1
      ensures HasGeneration(after, after[t].family, after[t].generation - 1)
    {
      assert HasGeneration(before, before[t].family, before[t].generation - 1);
      var s :| s in before && before[s].family == before[t].family && before[s].generation == before[t].generation - 1;
      assert after[s].family == after[t].family;
    }
    assert forall s, t :: SameFamily(after, s, t) ==> SameFamily(before, s, t);
  }

  lemma {:induction false} RevokeSessionsOnlyRevokes(db: Db, ids: seq<string>)
    ensures OnlyRevoked(db.tokens, RevokeSessions(db, ids).tokens)
    decreases |ids|
  {
    if ids != [] {
      RevokeSessionsOnlyRevokes(RevokeSession(db, ids[0]), ids[1..]);
    }
  }

  lemma StepOnlyRevokes(db: Db, step: Step)
    requires !step.Login? && !step.Rotation?
    ensures OnlyRevoked(db.tokens, Apply(db, step).tokens)
  {
    if step.Limit? {
      RevokeSessionsOnlyRevokes(db, step.oldestFirst[..Excess(|step.oldestFirst|, step.maxSessions)]);
    }
  }

  lemma LoginKeepsChained(db: Db, d: Drawn, user: string, now: real)
    requires Chained(db.tokens) && DrawnFresh(db, d)
    ensures Chained(CreateSession(db, d, user, now).tokens)
  {
    var after := CreateSession(db, d, user, now).tokens;
    forall t | t in after && after[t].generation > 1
      ensures HasGeneration(after, after[t].family, after[t].generation - 1)
    {
      assert HasGeneration(db.tokens, db.tokens[t].family, db.tokens[t].generation - 1);
      var s :| s in db.tokens && db.tokens[s].family == db.tokens[t].family
        && db.tokens[s].generation == db.tokens[t].generation - 1;
      assert after[s] == db.tokens[s];
    }
    assert forall s, t :: SameFamily(after, s, t) && s != d.token && t != d.token ==> SameFamily(db.tokens, s, t);
    assert forall s :: SameFamily(after, s, d.token) || SameFamily(after, d.token, s) ==> s == d.token;
  }

  lemma RotationKeepsLinks(tokens: map<string, Token>, oldId: string, newId: string, token: Token, t: string)
    requires Chained(tokens) && oldId in tokens && newId !in tokens
    requires token.family == tokens[oldId].family && token.generation == tokens[oldId].generation + 1
    requires var after := RotateToken(tokens, oldId, newId, token);
             t in after && after[t].generation > 1
    ensures var after := RotateToken(tokens, oldId, newId, token);
            HasGeneration(after, after[t].family, after[t].generation - 1)
  {
    var after := RotateToken(tokens, oldId, newId, token);
    if t == newId {
      assert after[oldId].family == token.family && after[oldId].generation == token.generation - 1;
    } else {
      assert HasGeneration(tokens, tokens[t].family, tokens[t].generation - 1);
      var s :| s in tokens && tokens[s].family == tokens[t].family && tokens[s].generation == tokens[t].generation - 1;
      assert after[s].family == tokens[s].family && after[s].generation == tokens[s].generation;
    }
  }

  /** Among two tokens of a family after a rotation, either both were there or the newer one is the
      replacement. */
  lemma RotationFamilies(tokens: map<string, Token>, oldId: string, newId: string, token: Token, s: string, t: string)
    requires Chained(tokens) && oldId in tokens && newId !in tokens && tokens[oldId].status == Active
    requires token.family == tokens[oldId].family && token.generation == tokens[oldId].generation + 1
    requires SameFamily(RotateToken(tokens, oldId, newId, token), s, t)
    ensures var after := RotateToken(tokens, oldId, newId, token);
            && (after[s].generation == after[t].generation ==> s == t)
            && (after[s].status == Active ==> after[t].generation <= after[s].generation)
  {
    if s != newId && t != newId {
      assert SameFamily(tokens, s, t);
      if s != oldId && tokens[s].status == Active {
        assert tokens[s].family == tokens[oldId].family ==>
          SameFamily(tokens, s, oldId) && SameFamily(tokens, oldId, s);
      }
    } else if s != newId {
      assert SameFamily(tokens, oldId, s) && SameFamily(tokens, s, oldId);
    } else if t != newId {
      assert SameFamily(tokens, oldId, t);
    }
  }

  lemma RotationKeepsChained(tokens: map<string, Token>, oldId: string, newId: string, token: Token)
    requires Chained(tokens) && oldId in tokens && newId !in tokens && tokens[oldId].status == Active
    requires token.family == tokens[oldId].family && token.generation == tokens[oldId].generation + 1
    ensures Chained(RotateToken(tokens, oldId, newId, token))
  {
    var after := RotateToken(tokens, oldId, newId, token);
    forall t | t in after
      ensures after[t].generation >= 1
      ensures after[t].generation > 1 ==> HasGeneration(after, after[t].family, after[t].generation - 1)
    {
      if after[t].generation > 1 {
        RotationKeepsLinks(tokens, oldId, newId, token, t);
      }
    }
    forall s, t | SameFamily(after, s, t)
      ensures after[s].generation == after[t].generation ==> s == t
      ensures after[s].status == Active ==> after[t].generation <= after[s].generation
    {
      RotationFamilies(tokens, oldId, newId, token, s, t);
    }
  }

  /** A revoked session has nothing active in its family. */
  ghost predicate RevokedIsSilent(db: Db) {
    forall s, t ::
      s in db.sessions && t in db.tokens && db.sessions[s].revoked && db.tokens[t].family == db.sessions[s].family ==>
        db.tokens[t].status != Active
  }

  lemma RevokeSessionKeepsSilent(db: Db, id: string)
    requires RevokedIsSilent(db)
    ensures RevokedIsSilent(RevokeSession(db, id))
    ensures RevokeSession(db, id).sessions.Keys == db.sessions.Keys
    ensures forall s :: s in db.sessions && db.sessions[s].revoked ==> RevokeSession(db, id).sessions[s].revoked
  {
  }

  lemma {:induction false} RevokeSessionsKeepSilent(db: Db, ids: seq<string>)
    requires RevokedIsSilent(db)
    ensures RevokedIsSilent(RevokeSessions(db, ids))
    ensures RevokeSessions(db, ids).sessions.Keys == db.sessions.Keys
    ensures forall s :: s in db.sessions && db.sessions[s].revoked ==> RevokeSessions(db, ids).sessions[s].revoked
    decreases |ids|
  {
    if ids != [] {
      RevokeSessionKeepsSilent(db, ids[0]);
      RevokeSessionsKeepSilent(RevokeSession(db, ids[0]), ids[1..]);
    }
  }

  lemma LogoutKeepsSilent(db: Db, ids: set<string>)
    requires RevokedIsSilent(db)
    ensures RevokedIsSilent(LoggedOut(db, ids))
  {
    var after := LoggedOut(db, ids);
    forall s, t | && s in after.sessions && t in after.tokens
                  && after.sessions[s].revoked && after.tokens[t].family == after.sessions[s].family
      ensures after.tokens[t].status != Active
    {
      if s in ids {
        assert InFamilies(db, ids, db.sessions[s].family);
      }
    }
  }

  /** What a run keeps of a token that is not active: it never becomes active again. */
  ghost predicate StaysInactive(before: Db, after: Db) {
    && (forall t :: t in before.tokens && before.tokens[t].status != Active ==>
          t in after.tokens && after.tokens[t].status != Active)
    && (forall s :: s in before.sessions && before.sessions[s].revoked ==>
         s in after.sessions && after.sessions[s].revoked)
    && before.tokens.Keys <= after.tokens.Keys
  }

  lemma RotationShape(db: Db, p: Presented, now: real)
    ensures var r := RotateRefreshToken(db, p, now);
            && (r.issued.None? ==> r.db == db)
            && (r.issued.Some? ==> p.id in db.tokens && db.tokens[p.id].status == Active && p.session in db.sessions)
            && (r.issued.Some? ==> r.db.tokens == RotateToken(db.tokens, p.id, p.newId, Replacement(db, p, now)))
            && (r.issued.Some? ==> r.db.sessions == db.sessions[p.session := db.sessions[p.session].(
                  current := p.newId, previous := db.sessions[p.session].previous + [p.id],
                  generation := db.tokens[p.id].generation + 1)])
  {
  }

  function Replacement(db: Db, p: Presented, now: real): Token
    requires p.id in db.tokens
  {
    Token(db.tokens[p.id].family, db.tokens[p.id].generation + 1, Active, Sha256(p.newSecret), now + TOKEN_LIFETIME)
  }

  lemma RotationKeeps(db: Db, p: Presented, now: real)
    requires Chained(db.tokens) && RevokedIsSilent(db) && p.newId !in db.tokens
    ensures var db' := RotateRefreshToken(db, p, now).db;
            Chained(db'.tokens) && RevokedIsSilent(db') && StaysInactive(db, db')
  {
    hide RotateRefreshToken, Chained;
    RotationShape(db, p, now);
    var r := RotateRefreshToken(db, p, now);
    if r.issued.Some? {
      RotationKeepsChained(db.tokens, p.id, p.newId, Replacement(db, p, now));
      RotationKeepsSilent(db, r.db, p, Replacement(db, p, now));
    } else {
      NothingStaysInactive(db);
    }
  }

  lemma NothingStaysInactive(db: Db)
    ensures StaysInactive(db, db)
  {
  }

  lemma RotationKeepsSilent(db: Db, db': Db, p: Presented, token: Token)
    requires RevokedIsSilent(db) && p.id in db.tokens && db.tokens[p.id].status == Active && p.newId !in db.tokens
    requires token.family == db.tokens[p.id].family && p.session in db.sessions
    requires db'.tokens == RotateToken(db.tokens, p.id, p.newId, token)
    requires db'.sessions.Keys == db.sessions.Keys
    requires forall s :: s in db.sessions ==>
               db'.sessions[s].revoked == db.sessions[s].revoked && db'.sessions[s].family == db.sessions[s].family
    ensures RevokedIsSilent(db') && StaysInactive(db, db')
  {
  }

  lemma RevocationKeeps(db: Db, step: Step)
    requires Chained(db.tokens) && RevokedIsSilent(db)
    requires !step.Login? && !step.Rotation?
    ensures Chained(Apply(db, step).tokens)
    ensures OnlyRevoked(db.tokens, Apply(db, step).tokens)
  {
    hide Apply;
    StepOnlyRevokes(db, step);
    RevokingKeepsChained(db.tokens, Apply(db, step).tokens);
  }

  lemma ApplyKeeps(db: Db, step: Step)
    requires Chained(db.tokens) && RevokedIsSilent(db)
    ensures var db' := Apply(db, step);
            Chained(db'.tokens) && RevokedIsSilent(db') && StaysInactive(db, db')
  {
    NothingStaysInactive(db);
    hide Chained, RevokedIsSilent, StaysInactive, OnlyRevoked, RotateRefreshToken, RevokeSessions, IsOldestFirst,
         LoggedOut, CreateSession, DrawnFresh, RevokeToken, RevokeSession;
    match step {
      case Login(d, user, now) =>
        if DrawnFresh(db, d) {
          LoginKeepsChained(db, d, user, now);
          LoginKeepsSilent(db, d, user, now);
        }
      case Rotation(p, now) =>
        if p.newId !in db.tokens {
          RotationKeeps(db, p, now);
        }
      case RevokeOne(id) =>
        RevocationKeeps(db, step);
        RevokedStaySilent(db, Apply(db, step));
      case RevokeAll(id) =>
        RevocationKeeps(db, step);
        RevokeSessionKeepsSilent(db, id);
        RevokedStayInactive(db, Apply(db, step));
      case Logout(user) =>
        RevocationKeeps(db, step);
        LogoutKeepsSilent(db, LiveSessions(db, user));
        LogoutMarks(db, LiveSessions(db, user));
        RevokedStayInactive(db, Apply(db, step));
      case Limit(user, maxSessions, oldestFirst) =>
        RevocationKeeps(db, step);
        RevokeSessionsKeepSilent(db, oldestFirst[..Excess(|oldestFirst|, maxSessions)]);
        if IsOldestFirst(db, user, oldestFirst) { RevokedStayInactive(db, Apply(db, step)); }
    }
  }

  lemma LoginKeepsSilent(db: Db, d: Drawn, user: string, now: real)
    requires RevokedIsSilent(db) && DrawnFresh(db, d)
    ensures var db' := CreateSession(db, d, user, now);
            RevokedIsSilent(db') && StaysInactive(db, db')
  {
  }

  lemma LogoutMarks(db: Db, ids: set<string>)
    ensures forall s :: s in db.sessions && db.sessions[s].revoked ==>
              s in LoggedOut(db, ids).sessions && LoggedOut(db, ids).sessions[s].revoked
  {
  }

  lemma RevokedStaySilent(before: Db, after: Db)
    requires RevokedIsSilent(before) && OnlyRevoked(before.tokens, after.tokens) && after.sessions == before.sessions
    ensures RevokedIsSilent(after) && StaysInactive(before, after)
  {
  }

  lemma RevokedStayInactive(before: Db, after: Db)
    requires OnlyRevoked(before.tokens, after.tokens)
    requires forall s :: s in before.sessions && before.sessions[s].revoked ==>
              s in after.sessions && after.sessions[s].revoked
    ensures StaysInactive(before, after)
  {
  }

  lemma {:induction false} RunKeeps(db: Db, steps: seq<Step>)
    requires Chained(db.tokens) && RevokedIsSilent(db)
    ensures var db' := Run(db, steps);
            Chained(db'.tokens) && RevokedIsSilent(db') && StaysInactive(db, db')
    decreases |steps|
  {
    hide Chained, RevokedIsSilent, Apply;
    if steps != [] {
      ApplyKeeps(db, steps[0]);
      RunKeeps(Apply(db, steps[0]), steps[1..]);
    }
  }

  lemma {:induction false} GenerationsHaveNoHoles(tokens: map<string, Token>, family: string, j: nat, k: nat)
    requires Chained(tokens) && HasGeneration(tokens, family, k) && 1 <= j <= k
    ensures HasGeneration(tokens, family, j)
    decreases k
  {
    if j < k {
      var t :| t in tokens && tokens[t].family == family && tokens[t].generation == k;
      GenerationsHaveNoHoles(tokens, family, j, k - 1);
    }
  }

  /** Main result: whatever the run, even with tokens presented next to foreign sessions, each
      family's generations are 1..n, each held by exactly one token, and a token that is active is
      the newest of its family. */
  lemma FamiliesAreLinear(steps: seq<Step>, t: string, j: nat)
    requires t in Run(EMPTY, steps).tokens && 1 <= j <= Run(EMPTY, steps).tokens[t].generation
    ensures var tokens := Run(EMPTY, steps).tokens;
            && HasGeneration(tokens, tokens[t].family, j)
            && (forall s :: SameFamily(tokens, s, t) && tokens[s].generation == tokens[t].generation ==> s == t)
            && (tokens[t].status == Active ==> forall s :: SameFamily(tokens, s, t) ==>
                 tokens[s].generation <= tokens[t].generation)
  {
    hide Apply;
    RunKeeps(EMPTY, steps);
    var tokens := Run(EMPTY, steps).tokens;
    GenerationsHaveNoHoles(tokens, tokens[t].family, j, tokens[t].generation);
    assert forall s :: SameFamily(tokens, s, t) ==> SameFamily(tokens, t, s);
  }

  // One-time use.

  predicate NoRepeats(ids: seq<string>) {
    forall i, j :: 0 <= i < j < |ids| ==> ids[i] != ids[j]
  }

  lemma {:induction false} ConsumedWereActive(db: Db, steps: seq<Step>, t: string)
    requires Chained(db.tokens) && RevokedIsSilent(db)
    requires t in db.tokens && db.tokens[t].status != Active
    ensures t !in Consumed(db, steps)
    decreases |steps|
  {
    hide Chained, RevokedIsSilent, Apply;
    if steps != [] {
      ApplyKeeps(db, steps[0]);
      ConsumedWereActive(Apply(db, steps[0]), steps[1..], t);
      if steps[0].Rotation? {
        RotationShape(db, steps[0].presented, steps[0].now);
      }
    }
  }

  lemma {:induction false} ConsumedOnceFrom(db: Db, steps: seq<Step>)
    requires Chained(db.tokens) && RevokedIsSilent(db)
    ensures NoRepeats(Consumed(db, steps))
    decreases |steps|
  {
    hide Chained, RevokedIsSilent;
    if steps != [] {
      var db1 := Apply(db, steps[0]);
      ApplyKeeps(db, steps[0]);
      ConsumedOnceFrom(db1, steps[1..]);
      if Consumes(db, steps[0]).Some? {
        var id := steps[0].presented.id;
        RotationShape(db, steps[0].presented, steps[0].now);
        hide RotateRefreshToken;
        assert id in db1.tokens && db1.tokens[id].status == Rotated;
        hide Apply;
        ConsumedWereActive(db1, steps[1..], id);
      }
    }
  }

  /** Main result: along any run no token is used up by two successful rotations. */
  lemma TokensAreOneTime(steps: seq<Step>)
    ensures NoRepeats(Consumed(EMPTY, steps))
  {
    ConsumedOnceFrom(EMPTY, steps);
  }

  /** Presenting a token again after its rotation changes nothing at all: it is refused before the
      replay check, so the family is not revoked on replay. */
  lemma ReplayIsRefusedWithoutRevocation(db: Db, p: Presented, now: real)
    requires p.id in db.tokens && db.tokens[p.id].status == Rotated
    ensures RotateRefreshToken(db, p, now) == RotateResult(db, None)
  {
  }

  // Revocation is final.

  /** Main result: once a session is revoked, by whatever step, no later run gives its family an
      active token, so no token of that family is ever accepted again. */
  lemma RevokedFamiliesStaySilent(before: seq<Step>, after: seq<Step>, s: string, id: string, secret: string, now: real)
    requires s in Run(EMPTY, before).sessions && Run(EMPTY, before).sessions[s].revoked
    ensures var db := Run(Run(EMPTY, before), after);
            && s in db.sessions && db.sessions[s].revoked
            && (Verify(db.tokens, id, secret, now).Some? ==> db.tokens[id].family != db.sessions[s].family)
  {
    hide Apply;
    RunKeeps(EMPTY, before);
    RunKeeps(Run(EMPTY, before), after);
  }

  lemma {:induction false} RevokedSessionsOf(db: Db, ids: seq<string>)
    ensures var db' := RevokeSessions(db, ids);
            && db'.sessions.Keys == db.sessions.Keys
            && forall s :: s in db.sessions ==>
                 db'.sessions[s] == if s in ids then db.sessions[s].(revoked := true) else db.sessions[s]
    decreases |ids|
  {
    if ids != [] {
      RevokedSessionsOf(RevokeSession(db, ids[0]), ids[1..]);
      assert forall s :: s in ids <==> s == ids[0] || s in ids[1..];
    }
  }

  lemma SurvivorsAreKept(db: Db, user: string, oldestFirst: seq<string>, n: nat)
    requires IsOldestFirst(db, user, oldestFirst) && n <= |oldestFirst|
    ensures forall s :: s in LiveSessions(RevokeSessions(db, oldestFirst[..n]), user) <==> s in oldestFirst[n..]
  {
    var gone, kept := oldestFirst[..n], oldestFirst[n..];
    RevokedSessionsOf(db, gone);
    hide RevokeSessions;
    var db' := RevokeSessions(db, gone);
    forall s
      ensures s in LiveSessions(db', user) <==> s in kept
    {
      assert s in LiveSessions(db', user) <==> s in LiveSessions(db, user) && s !in gone;
      assert s in LiveSessions(db, user) <==> s in oldestFirst;
      if s in kept {
        var j :| n <= j < |oldestFirst| && oldestFirst[j] == s;
        assert s !in gone;
      }
      if s in oldestFirst && s !in gone {
        var i :| 0 <= i < |oldestFirst| && oldestFirst[i] == s;
        assert i >= n;
        assert kept[i - n] == s;
      }
    }
  }

  /** After the limit is enforced the live sessions of the user are the newest ones: at most
      `maxSessions` of them, all of them if there were no more, and none older than a revoked one. */
  lemma LimitKeepsTheNewest(db: Db, user: string, oldestFirst: seq<string>, maxSessions: int)
    requires IsOldestFirst(db, user, oldestFirst)
    ensures var db' := EnforceLimit(db, oldestFirst, maxSessions);
            var survivors := LiveSessions(db', user);
            && survivors <= LiveSessions(db, user)
            && |survivors| ==
               (if |oldestFirst| <= maxSessions then |oldestFirst| else if maxSessions <= 0 then 0 else maxSessions)
            && forall s, r :: s in survivors && r in LiveSessions(db, user) - survivors ==>
                 db.sessions[r].createdAt <= db.sessions[s].createdAt
  {
    var n := Excess(|oldestFirst|, maxSessions);
    var kept := oldestFirst[n..];
    var db' := EnforceLimit(db, oldestFirst, maxSessions);
    var survivors := LiveSessions(db', user);
    SurvivorsAreKept(db, user, oldestFirst, n);
    hide RevokeSessions;
    DistinctCount(kept, survivors);
    forall s, r | s in survivors && r in LiveSessions(db, user) - survivors
      ensures db.sessions[r].createdAt <= db.sessions[s].createdAt
    {
      var i :| 0 <= i < n && oldestFirst[i] == r;
      var j :| n <= j < |oldestFirst| && oldestFirst[j] == s;
    }
  }

  lemma {:induction false} DistinctCount(ids: seq<string>, all: set<string>)
    requires NoRepeats(ids) && forall s :: s in all <==> s in ids
    ensures |all| == |ids|
    decreases |ids|
  {
    if ids == [] {
      assert all == {};
    } else {
      var rest := all - {ids[0]};
      assert forall s :: s in rest <==> s in ids[1..];
      DistinctCount(ids[1..], rest);
    }
  }
}
