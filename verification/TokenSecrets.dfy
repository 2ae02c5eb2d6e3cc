/** Who gets a new token, with which secret, and what each revocation takes away. */
module TokenSecrets {
  import opened Options
  import opened TokenStore
  import opened TokenFamilies

  // One rotation.

  /** Main result about a rotation: it is granted if and only if the token is stored with the hash of
      the presented secret, is active and has not expired, and the session exists. */
  lemma RotationIsGrantedExactlyWhen(db: Db, p: Presented, now: real)
    ensures RotateRefreshToken(db, p, now).issued.Some? <==>
            && p.id in db.tokens && db.tokens[p.id].hash == Sha256(p.secret)
            && db.tokens[p.id].status == Active && db.tokens[p.id].expiresAt >= now
            && p.session in db.sessions
  {
  }

  /** What a granted rotation stores: the old token used up, the new one one generation on in the same
      family with the hash of the new secret and a full lifetime, and the session's bookkeeping.
      Everything else, and on refusal everything, is as it was. */
  lemma RotationStores(db: Db, p: Presented, now: real)
    requires p.newId !in db.tokens
    ensures var r := RotateRefreshToken(db, p, now);
            if r.issued.None? then r.db == db
            else
              var old', session := db.tokens[p.id], db.sessions[p.session];
              && r.issued.value == p.newSecret
              && r.db.tokens.Keys == db.tokens.Keys + {p.newId} && r.db.sessions.Keys == db.sessions.Keys
              && (forall id :: id in db.tokens && id != p.id ==> r.db.tokens[id] == db.tokens[id])
              && (forall s :: s in db.sessions && s != p.session ==> r.db.sessions[s] == db.sessions[s])
              && r.db.tokens[p.id] == old'.(status := Rotated)
              && r.db.tokens[p.newId] ==
                 Token(old'.family, old'.generation + 1, Active, Sha256(p.newSecret), now + 7.0 * 24.0 * 3600.0)
              && r.db.sessions[p.session] == session.(
                   current := p.newId, previous := session.previous + [p.id], generation := old'.generation + 1)
  {
  }

  lemma LoginStores(db: Db, d: Drawn, user: string, now: real)
    requires DrawnFresh(db, d)
    ensures var db' := CreateSession(db, d, user, now);
            && db'.tokens.Keys == db.tokens.Keys + {d.token} && db'.sessions.Keys == db.sessions.Keys + {d.session}
            && (forall id :: id in db.tokens ==> db'.tokens[id] == db.tokens[id])
            && (forall s :: s in db.sessions ==> db'.sessions[s] == db.sessions[s])
            && db'.tokens[d.token] == Token(d.family, 1, Active, Sha256(d.secret), now + 7.0 * 24.0 * 3600.0)
            && db'.sessions[d.session] == Session(user, d.family, now, d.token, [], 1, false)
  {
  }

  // Every token's secret and birth along a run.

  datatype Birth = Birth(secret: string, at: real)

  /** The secret handed out for each token and when, by login or rotation. */
  function Births(db: Db, steps: seq<Step>, known: map<string, Birth>): map<string, Birth>
    decreases |steps|
  {
    if steps == [] then known else Births(Apply(db, steps[0]), steps[1..], BornIn(db, steps[0], known))
  }

  function BornIn(db: Db, step: Step, known: map<string, Birth>): map<string, Birth> {
    match step
    case Login(d, user, now) => if DrawnFresh(db, d) then known[d.token := Birth(d.secret, now)] else known
    case Rotation(p, now) =>
      if p.newId !in db.tokens && RotateRefreshToken(db, p, now).issued.Some?
      then known[p.newId := Birth(p.newSecret, now)] else known
    case _ => known
  }

  /** Each stored token has the hash of its own secret and expires a lifetime after its birth. */
  ghost predicate AllBorn(tokens: map<string, Token>, births: map<string, Birth>) {
    forall id :: id in tokens ==> BornAs(tokens[id], id, births)
  }

  predicate BornAs(token: Token, id: string, births: map<string, Birth>) {
    id in births && token.hash == Sha256(births[id].secret) && token.expiresAt == births[id].at + TOKEN_LIFETIME
  }

  /** Revocations touch nothing but the status. */
  ghost predicate OnlyStatus(before: map<string, Token>, after: map<string, Token>) {
    after.Keys == before.Keys &&
    forall id :: id in before ==> after[id].(status := before[id].status) == before[id]
  }

  lemma {:induction false} RevokeSessionsOnlyStatus(db: Db, ids: seq<string>)
    ensures OnlyStatus(db.tokens, RevokeSessions(db, ids).tokens)
    decreases |ids|
  {
    if ids != [] {
      RevokeSessionsOnlyStatus(RevokeSession(db, ids[0]), ids[1..]);
    }
  }

  lemma RevocationOnlyStatus(db: Db, step: Step)
    requires !step.Login? && !step.Rotation?
    ensures OnlyStatus(db.tokens, Apply(db, step).tokens)
  {
    if step.Limit? {
      RevokeSessionsOnlyStatus(db, step.oldestFirst[..Excess(|step.oldestFirst|, step.maxSessions)]);
    }
  }

  lemma StepKeepsBorn(db: Db, step: Step, births: map<string, Birth>)
    requires AllBorn(db.tokens, births)
    ensures AllBorn(Apply(db, step).tokens, BornIn(db, step, births))
  {
    match step {
      case Login(d, user, now) =>
      case Rotation(p, now) =>
        if p.newId !in db.tokens {
          RotationStores(db, p, now);
          RotationIsGrantedExactlyWhen(db, p, now);
          hide RotateRefreshToken;
        }
      case _ =>
        RevocationOnlyStatus(db, step);
        hide Apply;
    }
  }

  lemma {:induction false} RunKeepsBorn(db: Db, steps: seq<Step>, births: map<string, Birth>)
    requires AllBorn(db.tokens, births)
    ensures AllBorn(Run(db, steps).tokens, Births(db, steps, births))
    decreases |steps|
  {
    hide AllBorn, Apply, BornIn;
    if steps != [] {
      StepKeepsBorn(db, steps[0], births);
      RunKeepsBorn(Apply(db, steps[0]), steps[1..], BornIn(db, steps[0], births));
    }
  }

  /** Main result: along any run, whoever is granted a rotation presents exactly the secret that was
      handed out with that token, and no later than its lifetime after that. */
  lemma GrantedSecretsWereHandedOut(before: seq<Step>, p: Presented, now: real)
    requires RotateRefreshToken(Run(EMPTY, before), p, now).issued.Some?
    ensures var births := Births(EMPTY, before, map[]);
            p.id in births && p.secret == births[p.id].secret && now <= births[p.id].at + TOKEN_LIFETIME
  {
    RotationIsGrantedExactlyWhen(Run(EMPTY, before), p, now);
    RunKeepsBorn(EMPTY, before, map[]);
    hide RotateRefreshToken, Births;
    assert BornAs(Run(EMPTY, before).tokens[p.id], p.id, Births(EMPTY, before, map[]));
  }

  // What revocations take away.

  /** A session revoked by name is marked and nothing in its family is active any more; tokens of other
      families and the other sessions are as they were. */
  lemma RevokingASessionSilences(db: Db, id: string)
    ensures var db' := Apply(db, RevokeAll(id));
            if id !in db.sessions then db' == db
            else
              var family := db.sessions[id].family;
              && db'.sessions == db.sessions[id := db.sessions[id].(revoked := true)]
              && db'.tokens.Keys == db.tokens.Keys
              && forall t :: t in db.tokens ==>
                   db'.tokens[t] ==
                   if db.tokens[t].family == family && db.tokens[t].status == Active
                   then db.tokens[t].(status := Revoked) else db.tokens[t]
  {
  }

  lemma RevokingATokenSilences(db: Db, id: string)
    ensures var db' := Apply(db, RevokeOne(id));
            && db'.sessions == db.sessions && db'.tokens.Keys == db.tokens.Keys
            && forall t :: t in db.tokens ==>
                 db'.tokens[t] == if t == id then db.tokens[t].(status := Revoked) else db.tokens[t]
  {
  }

  /** The session belongs to the user, is not revoked, and is of the family. */
  predicate LiveIn(db: Db, user: string, s: string, family: string) {
    s in db.sessions && db.sessions[s].user == user && !db.sessions[s].revoked && db.sessions[s].family == family
  }

  /** After a global logout the user has no live session and no active token in the families of those
      that were live; other users' sessions and other families are as they were. */
  lemma LogoutSilencesTheUser(db: Db, user: string)
    ensures var db' := Apply(db, Logout(user));
            && db'.sessions.Keys == db.sessions.Keys && db'.tokens.Keys == db.tokens.Keys
            && (forall s :: s in db.sessions ==>
                  db'.sessions[s] ==
                  if db.sessions[s].user == user then db.sessions[s].(revoked := true) else db.sessions[s])
            && (forall t, s :: t in db.tokens && LiveIn(db, user, s, db.tokens[t].family) ==>
                  db'.tokens[t].status != Active)
            && (forall t :: t in db.tokens && db'.tokens[t] != db.tokens[t] ==>
                  && db.tokens[t].status == Active && db'.tokens[t] == db.tokens[t].(status := Revoked)
                  && exists s :: LiveIn(db, user, s, db.tokens[t].family))
  {
    var db' := Apply(db, Logout(user));
    var live := LiveSessions(db, user);
    forall t, s | t in db.tokens && LiveIn(db, user, s, db.tokens[t].family)
      ensures db'.tokens[t].status != Active
    {
      assert s in live && InFamilies(db, live, db.tokens[t].family);
    }
    forall t | t in db.tokens && db'.tokens[t] != db.tokens[t]
      ensures exists s :: LiveIn(db, user, s, db.tokens[t].family)
    {
      var s :| s in live && s in db.sessions && db.sessions[s].family == db.tokens[t].family;
      assert LiveIn(db, user, s, db.tokens[t].family);
    }
  }
}
