/** Refresh tokens and sessions as stored documents, and every operation on them as a function. */
module TokenStore {
  import opened Options

  datatype TokenStatus = Active | Rotated | Revoked | Expired

  /** SHA-256 idealised: the hash determines the secret. */
  datatype TokenHash = Sha256(secret: string)

  datatype Token = Token(family: string, generation: nat, status: TokenStatus, hash: TokenHash, expiresAt: real)

  datatype Session = Session(
    user: string, family: string, createdAt: real,
    current: string, previous: seq<string>, generation: nat, revoked: bool)

  datatype Db = Db(tokens: map<string, Token>, sessions: map<string, Session>)

  const TOKEN_LIFETIME := 604800.0  // seven days

  /** The identifiers and the secret drawn for a new session. */
  datatype Drawn = Drawn(session: string, family: string, token: string, secret: string)

  function CreateSession(db: Db, d: Drawn, user: string, now: real): Db {
    Db(db.tokens[d.token := Token(d.family, 1, Active, Sha256(d.secret), now + TOKEN_LIFETIME)],
       db.sessions[d.session := Session(user, d.family, now, d.token, [], 1, false)])
  }

  /** The stored token if it exists, matches, is active and has not expired. */
  function Verify(tokens: map<string, Token>, id: string, secret: string, now: real): Option<Token> {
    if id !in tokens || tokens[id].hash != Sha256(secret) then None
    else if tokens[id].status != Active || tokens[id].expiresAt < now then None
    else Some(tokens[id])
  }

  function RotateToken(tokens: map<string, Token>, oldId: string, newId: string, token: Token): map<string, Token>
    requires oldId in tokens
  {
    tokens[oldId := tokens[oldId].(status := Rotated)][newId := token]
  }

  function RevokeToken(tokens: map<string, Token>, id: string): map<string, Token> {
    if id in tokens then tokens[id := tokens[id].(status := Revoked)] else tokens
  }

  function RevokeFamily(tokens: map<string, Token>, family: string): map<string, Token> {
    map id | id in tokens ::
      if tokens[id].family == family && tokens[id].status == Active then tokens[id].(status := Revoked) else tokens[id]
  }

  function RevokeSession(db: Db, id: string): Db {
    if id in db.sessions
    then Db(RevokeFamily(db.tokens, db.sessions[id].family), db.sessions[id := db.sessions[id].(revoked := true)])
    else db
  }

  function RevokeSessions(db: Db, ids: seq<string>): Db
    decreases |ids|
  {
    if ids == [] then db else RevokeSessions(RevokeSession(db, ids[0]), ids[1..])
  }

  /** A presented token and what rotation draws to replace it. */
  datatype Presented = Presented(session: string, id: string, secret: string, newId: string, newSecret: string)

  datatype RotateResult = RotateResult(db: Db, issued: Option<string>)

  function RotateRefreshToken(db: Db, p: Presented, now: real): RotateResult {
    var verified := Verify(db.tokens, p.id, p.secret, now);
    if verified.None? || p.session !in db.sessions then RotateResult(db, None)
    else if verified.value.status == Rotated then
      RotateResult(RevokeSession(Db(RevokeFamily(db.tokens, verified.value.family), db.sessions), p.session), None)
    else
      var session := db.sessions[p.session];
      var generation := verified.value.generation + 1;
      var token := Token(verified.value.family, generation, Active, Sha256(p.newSecret), now + TOKEN_LIFETIME);
      var session' := session.(current := p.newId, previous := session.previous + [p.id], generation := generation);
      RotateResult(Db(RotateToken(db.tokens, p.id, p.newId, token), db.sessions[p.session := session']),
        Some(p.newSecret))
  }

  /** The unrevoked sessions of a user. */
  function LiveSessions(db: Db, user: string): set<string> {
    set id | id in db.sessions && db.sessions[id].user == user && !db.sessions[id].revoked
  }

  /** The live sessions of a user, oldest first: the answer of the ordered query. */
  predicate IsOldestFirst(db: Db, user: string, ids: seq<string>) {
    && (forall i :: 0 <= i < |ids| ==> ids[i] in LiveSessions(db, user))
    && (forall id :: id in LiveSessions(db, user) ==> id in ids)
    && (forall i, j :: 0 <= i < j < |ids| ==>
         ids[i] != ids[j] && db.sessions[ids[i]].createdAt <= db.sessions[ids[j]].createdAt)
  }

  /** How many sessions the limit revokes. */
  function Excess(count: nat, maxSessions: int): nat {
    if count <= maxSessions then 0 else if maxSessions <= 0 then count else count - maxSessions
  }

  function EnforceLimit(db: Db, oldestFirst: seq<string>, maxSessions: int): Db {
    RevokeSessions(db, oldestFirst[..Excess(|oldestFirst|, maxSessions)])
  }

  /** The given sessions revoked, and with them whatever was active in their families. */
  function LoggedOut(db: Db, ids: set<string>): Db {
    Db(map id | id in db.tokens ::
         if db.tokens[id].status == Active && InFamilies(db, ids, db.tokens[id].family)
         then db.tokens[id].(status := Revoked) else db.tokens[id],
       map id | id in db.sessions :: if id in ids then db.sessions[id].(revoked := true) else db.sessions[id])
  }

  predicate InFamilies(db: Db, ids: set<string>, family: string) {
    exists s :: s in ids && s in db.sessions && db.sessions[s].family == family
  }

  function GlobalLogout(db: Db, user: string): Db {
    LoggedOut(db, LiveSessions(db, user))
  }

  lemma NobodyLoggedOut(db: Db)
    ensures LoggedOut(db, {}) == db
  {
    assert LoggedOut(db, {}).tokens == db.tokens && LoggedOut(db, {}).sessions == db.sessions;
  }

  lemma LogoutOneMore(db: Db, ids: set<string>, id: string)
    requires id in db.sessions
    ensures RevokeSession(LoggedOut(db, ids), id) == LoggedOut(db, ids + {id})
  {
    assert forall family :: InFamilies(db, ids + {id}, family) <==>
      InFamilies(db, ids, family) || db.sessions[id].family == family;
    hide InFamilies;
    var d := RevokeSession(LoggedOut(db, ids), id);
    assert d.tokens == LoggedOut(db, ids + {id}).tokens;
    assert d.sessions == LoggedOut(db, ids + {id}).sessions;
  }
}
