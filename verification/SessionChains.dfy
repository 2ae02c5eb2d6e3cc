/** What a session document says about its token family: previous_refresh_tokens followed by the
    current token is the whole family, oldest first. */
module SessionChains {
  import opened Options
  import opened TokenStore
  import opened TokenFamilies

  /** The tokens a session has gone through, the current one last. */
  function Chain(session: Session): (ids: seq<string>)
    ensures |ids| == |session.previous| + 1
  {
    session.previous + [session.current]
  }

  /** The chain lists the whole family, generation by generation. */
  ghost predicate ListsItsFamily(tokens: map<string, Token>, session: Session) {
    && |Chain(session)| == session.generation
    && (forall i :: 0 <= i < |Chain(session)| ==> ChainLink(tokens, session.family, Chain(session)[i], i))
    && (forall t :: t in tokens && tokens[t].family == session.family ==> tokens[t].generation <= session.generation)
  }

  predicate ChainLink(tokens: map<string, Token>, family: string, id: string, i: nat) {
    id in tokens && tokens[id].family == family && tokens[id].generation == i + 1
  }

  ghost predicate SessionsListFamilies(db: Db) {
    && (forall s :: s in db.sessions ==> ListsItsFamily(db.tokens, db.sessions[s]))
    && (forall s, r :: s in db.sessions && r in db.sessions && db.sessions[s].family == db.sessions[r].family ==>
         s == r)
  }

  /** A step presents a token with the session it belongs to. */
  predicate Own(db: Db, step: Step) {
    step.Rotation? && step.presented.id in db.tokens && step.presented.session in db.sessions ==>
      db.tokens[step.presented.id].family == db.sessions[step.presented.session].family
  }

  predicate AllOwn(db: Db, steps: seq<Step>)
    decreases |steps|
  {
    steps == [] || (Own(db, steps[0]) && AllOwn(Apply(db, steps[0]), steps[1..]))
  }

  /** Sessions are the same but for their revoked mark. */
  ghost predicate OnlyMarked(before: map<string, Session>, after: map<string, Session>) {
    && after.Keys == before.Keys
    && forall s :: s in before ==> after[s].(revoked := false) == before[s].(revoked := false)
  }

  lemma RevocationOnlyMarks(db: Db, step: Step)
    requires !step.Login? && !step.Rotation?
    ensures OnlyMarked(db.sessions, Apply(db, step).sessions)
  {
    if step.Limit? {
      RevokedSessionsOf(db, step.oldestFirst[..Excess(|step.oldestFirst|, step.maxSessions)]);
    }
  }

  lemma RevocationKeepsLists(before: Db, after: Db)
    requires SessionsListFamilies(before)
    requires OnlyRevoked(before.tokens, after.tokens) && OnlyMarked(before.sessions, after.sessions)
    ensures SessionsListFamilies(after)
  {
    forall s | s in after.sessions
      ensures ListsItsFamily(after.tokens, after.sessions[s])
      ensures after.sessions[s].family == before.sessions[s].family
    {
      var old', new' := before.sessions[s].(revoked := false), after.sessions[s].(revoked := false);
      assert old' == new';
      assert ListsItsFamily(before.tokens, before.sessions[s]);
      assert Chain(after.sessions[s]) == Chain(before.sessions[s]);
      forall i | 0 <= i < |Chain(after.sessions[s])|
        ensures ChainLink(after.tokens, after.sessions[s].family, Chain(after.sessions[s])[i], i)
      {
        assert ChainLink(before.tokens, before.sessions[s].family, Chain(before.sessions[s])[i], i);
      }
    }
  }

  lemma LoginKeepsLists(db: Db, d: Drawn, user: string, now: real)
    requires SessionsListFamilies(db) && DrawnFresh(db, d)
    ensures SessionsListFamilies(CreateSession(db, d, user, now))
  {
    var after := CreateSession(db, d, user, now);
    forall s | s in after.sessions
      ensures ListsItsFamily(after.tokens, after.sessions[s])
    {
      if s != d.session {
        assert ListsItsFamily(db.tokens, db.sessions[s]);
        forall i | 0 <= i < |Chain(after.sessions[s])|
          ensures ChainLink(after.tokens, after.sessions[s].family, Chain(after.sessions[s])[i], i)
        {
          assert ChainLink(db.tokens, db.sessions[s].family, Chain(db.sessions[s])[i], i);
        }
      }
    }
  }

  /** Under the chain invariant an active token of a session's family is the session's current one. */
  lemma ActiveIsCurrent(db: Db, s: string, id: string)
    requires Chained(db.tokens) && s in db.sessions && ListsItsFamily(db.tokens, db.sessions[s])
    requires id in db.tokens && db.tokens[id].family == db.sessions[s].family && db.tokens[id].status == Active
    ensures id == db.sessions[s].current && db.tokens[id].generation == db.sessions[s].generation
  {
    var session := db.sessions[s];
    var n := |session.previous|;
    assert Chain(session)[n] == session.current;
    assert ChainLink(db.tokens, session.family, Chain(session)[n], n);
    assert SameFamily(db.tokens, id, session.current);
  }

  lemma OwnRotationKeepsLists(db: Db, p: Presented, now: real)
    requires Chained(db.tokens) && SessionsListFamilies(db) && p.newId !in db.tokens
    requires RotateRefreshToken(db, p, now).issued.Some?
    requires Own(db, Rotation(p, now))
    ensures SessionsListFamilies(RotateRefreshToken(db, p, now).db)
  {
    hide RotateRefreshToken, Chained, ListsItsFamily;
    RotationShape(db, p, now);
    ActiveIsCurrent(db, p.session, p.id);
    var after := RotateRefreshToken(db, p, now).db;
    forall s | s in after.sessions
      ensures ListsItsFamily(after.tokens, after.sessions[s])
    {
      if s == p.session {
        RotatedListGrows(db.tokens, db.sessions[s], p, Replacement(db, p, now));
      } else {
        OtherListsStay(db.tokens, db.sessions[s], p, Replacement(db, p, now));
      }
    }
  }

  lemma RotatedListGrows(tokens: map<string, Token>, session: Session, p: Presented, token: Token)
    requires ListsItsFamily(tokens, session) && p.id in tokens && p.newId !in tokens
    requires p.id == session.current && token.family == session.family == tokens[p.id].family
    requires token.generation == session.generation + 1
    ensures ListsItsFamily(RotateToken(tokens, p.id, p.newId, token),
              session.(current := p.newId, previous := session.previous + [p.id], generation := token.generation))
  {
    var tokens' := RotateToken(tokens, p.id, p.newId, token);
    var session' := session.(current := p.newId, previous := session.previous + [p.id], generation := token.generation);
    forall i | 0 <= i < |Chain(session')|
      ensures ChainLink(tokens', session'.family, Chain(session')[i], i)
    {
      if i < |Chain(session)| {
        assert ChainLink(tokens, session.family, Chain(session)[i], i);
      }
    }
  }

  lemma OtherListsStay(tokens: map<string, Token>, session: Session, p: Presented, token: Token)
    requires ListsItsFamily(tokens, session) && p.id in tokens && p.newId !in tokens
    requires token.family != session.family
    ensures ListsItsFamily(RotateToken(tokens, p.id, p.newId, token), session)
  {
    var tokens' := RotateToken(tokens, p.id, p.newId, token);
    forall i | 0 <= i < |Chain(session)|
      ensures ChainLink(tokens', session.family, Chain(session)[i], i)
    {
      assert ChainLink(tokens, session.family, Chain(session)[i], i);
    }
  }

  /** A token rotated next to a foreign session leaves that session naming a token of another family,
      so one successful rotation keeps the lists exactly when the token belongs to the session. */
  lemma RotationKeepsListsExactlyWhenOwn(db: Db, p: Presented, now: real)
    requires Chained(db.tokens) && SessionsListFamilies(db) && p.newId !in db.tokens
    requires RotateRefreshToken(db, p, now).issued.Some?
    ensures SessionsListFamilies(RotateRefreshToken(db, p, now).db) <==> Own(db, Rotation(p, now))
  {
    if Own(db, Rotation(p, now)) {
      OwnRotationKeepsLists(db, p, now);
    } else {
      RotationShape(db, p, now);
      var after := RotateRefreshToken(db, p, now).db;
      hide RotateRefreshToken;
      var session := after.sessions[p.session];
      var n := |session.previous|;
      assert Chain(session)[n] == p.newId;
      assert !ChainLink(after.tokens, session.family, Chain(session)[n], n);
      assert !ListsItsFamily(after.tokens, session);
    }
  }

  lemma ApplyKeepsLists(db: Db, step: Step)
    requires Chained(db.tokens) && SessionsListFamilies(db) && Own(db, step)
    ensures SessionsListFamilies(Apply(db, step))
  {
    hide Chained, SessionsListFamilies;
    match step {
      case Login(d, user, now) =>
        if DrawnFresh(db, d) { LoginKeepsLists(db, d, user, now); }
      case Rotation(p, now) =>
        if p.newId !in db.tokens {
          RotationShape(db, p, now);
          if RotateRefreshToken(db, p, now).issued.Some? { OwnRotationKeepsLists(db, p, now); }
        }
      case _ =>
        StepOnlyRevokes(db, step);
        RevocationOnlyMarks(db, step);
        RevocationKeepsLists(db, Apply(db, step));
    }
  }

  lemma {:induction false} RunKeepsLists(db: Db, steps: seq<Step>)
    requires Chained(db.tokens) && RevokedIsSilent(db) && SessionsListFamilies(db) && AllOwn(db, steps)
    ensures SessionsListFamilies(Run(db, steps))
    decreases |steps|
  {
    hide Chained, RevokedIsSilent, SessionsListFamilies, Apply, Own;
    if steps != [] {
      ApplyKeeps(db, steps[0]);
      ApplyKeepsLists(db, steps[0]);
      RunKeepsLists(Apply(db, steps[0]), steps[1..]);
    }
  }

  /** Main result: if every token is presented with its own session, a session's previous tokens
      followed by its current one are exactly the tokens of its family in the order of their
      generations 1..n, and only the current one may be active. */
  lemma SessionListsItsFamily(steps: seq<Step>, s: string, id: string)
    requires AllOwn(EMPTY, steps) && s in Run(EMPTY, steps).sessions
    ensures var db := Run(EMPTY, steps);
            var session := db.sessions[s];
            && |Chain(session)| == session.generation
            && (forall i :: 0 <= i < |Chain(session)| ==> ChainLink(db.tokens, session.family, Chain(session)[i], i))
            && (id in db.tokens && db.tokens[id].family == session.family ==>
                  && 1 <= db.tokens[id].generation <= |Chain(session)|
                  && Chain(session)[db.tokens[id].generation - 1] == id)
            && (id in db.tokens && db.tokens[id].family == session.family && db.tokens[id].status == Active ==>
                 id == session.current)
  {
    hide Run, Chained, ListsItsFamily, RevokedIsSilent;
    EmptyIsGood();
    RunKeeps(EMPTY, steps);
    RunKeepsLists(EMPTY, steps);
    ListedFamily(Run(EMPTY, steps), s, id);
  }

  lemma EmptyIsGood()
    ensures Chained(EMPTY.tokens) && RevokedIsSilent(EMPTY) && SessionsListFamilies(EMPTY)
  {
  }

  lemma ListedFamily(db: Db, s: string, id: string)
    requires Chained(db.tokens) && s in db.sessions && ListsItsFamily(db.tokens, db.sessions[s])
    ensures var session := db.sessions[s];
            && |Chain(session)| == session.generation
            && (forall i :: 0 <= i < |Chain(session)| ==> ChainLink(db.tokens, session.family, Chain(session)[i], i))
            && (id in db.tokens && db.tokens[id].family == session.family ==>
                  && 1 <= db.tokens[id].generation <= |Chain(session)|
                  && Chain(session)[db.tokens[id].generation - 1] == id)
            && (id in db.tokens && db.tokens[id].family == session.family && db.tokens[id].status == Active ==>
                 id == session.current)
  {
    var session := db.sessions[s];
    if id in db.tokens && db.tokens[id].family == session.family {
      var i := db.tokens[id].generation - 1;
      assert ChainLink(db.tokens, session.family, Chain(session)[i], i);
      assert SameFamily(db.tokens, id, Chain(session)[i]);
      if db.tokens[id].status == Active { ActiveIsCurrent(db, s, id); }
    }
  }
}
