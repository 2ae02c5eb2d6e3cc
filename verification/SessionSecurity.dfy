/** The token repository and the session security service, updating stored documents in place. */
module SessionSecurity {
  import opened Options
  import opened TokenStore

  /** The active tokens of a family. */
  function ActiveIn(tokens: map<string, Token>, family: string): set<string> {
    set id | id in tokens && tokens[id].family == family && tokens[id].status == Active
  }

  class TokenRepository {
    var tokens: map<string, Token>

    constructor ()
      ensures tokens == map[]
    {
      tokens := map[];
    }

    method StoreToken(id: string, secret: string, token: Token)
      modifies this
      ensures tokens == old(tokens)[id := token.(hash := Sha256(secret))]
    {
      tokens := tokens[id := token.(hash := Sha256(secret))];
    }

    method VerifyAndGetToken(id: string, secret: string, now: real) returns (token: Option<Token>)
      ensures token == Verify(tokens, id, secret, now)
    {
      if id !in tokens { return None; }
      if tokens[id].hash != Sha256(secret) { return None; }
      if tokens[id].status != Active { return None; }
      if tokens[id].expiresAt < now { return None; }
      return Some(tokens[id]);
    }

    method Rotate(oldId: string, newId: string, newSecret: string, token: Token)
      requires oldId in tokens
      modifies this
      ensures tokens == RotateToken(old(tokens), oldId, newId, token.(hash := Sha256(newSecret)))
    {
      tokens := tokens[oldId := tokens[oldId].(status := Rotated)];
      tokens := tokens[newId := token.(hash := Sha256(newSecret))];
    }

    method Revoke(id: string) returns (ok: bool)
      modifies this
      ensures ok <==> id in old(tokens)
      ensures tokens == RevokeToken(old(tokens), id)
    {
      if id !in tokens { return false; }
      tokens := tokens[id := tokens[id].(status := Revoked)];
      return true;
    }

    /** Revoke whatever is active in the family, document by document, and count it. */
    method RevokeTokenFamily(family: string) returns (count: nat)
      modifies this
      ensures tokens == RevokeFamily(old(tokens), family)
      ensures count == |ActiveIn(old(tokens), family)|
    {
      var docs := ActiveIn(tokens, family);
      ghost var all := docs;
      count := 0;
      while docs != {}
        invariant docs <= all
        invariant all == ActiveIn(old(tokens), family)
        invariant count + |docs| == |all|
        invariant tokens.Keys == old(tokens).Keys
        invariant forall id :: id in tokens ==>
                    tokens[id] ==
                    if id in all && id !in docs then old(tokens)[id].(status := Revoked) else old(tokens)[id]
      {
        var id :| id in docs;
        tokens := tokens[id := tokens[id].(status := Revoked)];
        docs := docs - {id};
        count := count + 1;
      }
    }
  }

  class SessionSecurityService {
    const repository: TokenRepository
    var sessions: map<string, Session>

    function View(): Db
      reads this, repository
    {
      Db(repository.tokens, sessions)
    }

    constructor ()
      ensures fresh(repository) && View() == Db(map[], map[])
    {
      repository := new TokenRepository();
      sessions := map[];
    }

    method Create(d: Drawn, user: string, now: real)
      modifies this, repository
      ensures View() == CreateSession(old(View()), d, user, now)
    {
      var token := Token(d.family, 1, Active, Sha256(""), now + TOKEN_LIFETIME);
      repository.StoreToken(d.token, d.secret, token);
      sessions := sessions[d.session := Session(user, d.family, now, d.token, [], 1, false)];
    }

    method Rotate(p: Presented, now: real) returns (issued: Option<string>)
      modifies this, repository
      ensures RotateResult(View(), issued) == RotateRefreshToken(old(View()), p, now)
    {
      var verified := repository.VerifyAndGetToken(p.id, p.secret, now);
      if verified.None? { return None; }
      if p.session !in sessions { return None; }
      var session := sessions[p.session];
      if verified.value.status == Rotated {
        assert false;  // the replay branch: a verified token is active
      }
      var generation := verified.value.generation + 1;
      var token := Token(verified.value.family, generation, Active, Sha256(""), now + TOKEN_LIFETIME);
      repository.Rotate(p.id, p.newId, p.newSecret, token);
      session := session.(current := p.newId, previous := session.previous + [p.id], generation := generation);
      sessions := sessions[p.session := session];
      return Some(p.newSecret);
    }

    method Revoke(id: string) returns (ok: bool)
      modifies this, repository
      ensures ok <==> id in old(sessions)
      ensures View() == RevokeSession(old(View()), id)
    {
      if id !in sessions { return false; }
      var count := repository.RevokeTokenFamily(sessions[id].family);
      sessions := sessions[id := sessions[id].(revoked := true)];
      return true;
    }

    /** Revoke every live session of the user, one after the other. */
    method Logout(user: string) returns (count: nat)
      modifies this, repository
      ensures View() == GlobalLogout(old(View()), user)
      ensures count == |LiveSessions(old(View()), user)|
    {
      ghost var before := View();
      var docs := LiveSessions(Db(repository.tokens, sessions), user);
      ghost var all := docs;
      count := 0;
      NobodyLoggedOut(before);
      hide LoggedOut;
      assert all - docs == {};
      while docs != {}
        invariant docs <= all == LiveSessions(before, user)
        invariant count + |docs| == |all|
        invariant View() == LoggedOut(before, all - docs)
      {
        var id :| id in docs;
        LogoutOneMore(before, all - docs, id);
        var revoked := repository.RevokeTokenFamily(sessions[id].family);
        sessions := sessions[id := sessions[id].(revoked := true)];
        assert all - (docs - {id}) == all - docs + {id};
        docs := docs - {id};
        count := count + 1;
      }
      assert all - docs == all;
    }

    /** Revoke the oldest live sessions beyond the limit. */
    method EnforceConcurrentSessionLimit(user: string, maxSessions: int, oldestFirst: seq<string>)
      requires IsOldestFirst(View(), user, oldestFirst)
      modifies this, repository
      ensures View() == EnforceLimit(old(View()), oldestFirst, maxSessions)
    {
      if |oldestFirst| <= maxSessions { return; }
      var toRevoke := oldestFirst[..Excess(|oldestFirst|, maxSessions)];
      for i := 0 to |toRevoke|
        invariant RevokeSessions(View(), toRevoke[i..]) == RevokeSessions(old(View()), toRevoke)
      {
        var ok := Revoke(toRevoke[i]);
        assert toRevoke[i..][1..] == toRevoke[i + 1..];
      }
    }
  }
}
