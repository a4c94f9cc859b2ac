/**
 * Refresh-token families (control/jwt_auth.py, lines 29-91; control/views.py, lines 288-290):
 * rotation of single-use sessions, with revocation of the whole family on replay, the scheme of
 * section 4.14.2 of RFC 9700.
 *
 * Session identifiers are issue positions: they never repeat. Time is in microseconds, token
 * expiry in whole seconds. Signatures are taken as valid: every presented token was minted here.
 */
module RefreshSessions {
  import opened Prelude

  const SECOND := 1000000

  datatype Session = Session(user: nat, family: nat, expiresAt: int, revoked: bool, replacedBy: Option<nat>)

  /** The claims of a refresh token that rotation reads; `exp` is in whole seconds. */
  datatype Token = Token(jti: nat, family: nat, exp: int)

  datatype RotationError = ExpiredToken | UnknownSession | ReuseDetected | ExpiredSession

  function TokenFor(sessions: seq<Session>, jti: nat): Token
    requires jti < |sessions|
  {
    Token(jti, sessions[jti].family, sessions[jti].expiresAt / SECOND)
  }

  /** The decoder accepts a token strictly before its expiry second. */
  predicate Decodes(token: Token, now: int) {
    now < token.exp * SECOND
  }

  // ---------------------------------------------------------------- the transactions

  function Issued(sessions: seq<Session>, user: nat, family: nat, now: int, lifetime: nat): seq<Session> {
    sessions + [Session(user, family, now + lifetime * SECOND, false, None)]
  }

  function Revoke(x: Session): Session {
    x.(revoked := true)
  }

  function RevokeFamily(sessions: seq<Session>, family: nat): (r: seq<Session>)
    ensures |r| == |sessions|
    ensures forall i :: 0 <= i < |r| ==>
              r[i] == if sessions[i].family == family then Revoke(sessions[i]) else sessions[i]
  {
    seq(|sessions|, i requires 0 <= i < |sessions| =>
      if sessions[i].family == family then Revoke(sessions[i]) else sessions[i])
  }

  function RevokeUser(sessions: seq<Session>, user: nat): (r: seq<Session>)
    ensures |r| == |sessions|
    ensures forall i :: 0 <= i < |r| ==> r[i] == if sessions[i].user == user then Revoke(sessions[i]) else sessions[i]
  {
    seq(|sessions|, i requires 0 <= i < |sessions| =>
      if sessions[i].user == user then Revoke(sessions[i]) else sessions[i])
  }

  datatype Rotation = Rotation(sessions: seq<Session>, result: Result<nat, RotationError>)

  /** Decoded at `decoded`, executed at `now`; Ok holds the identifier of the new session. */
  function Rotated(sessions: seq<Session>, token: Token, decoded: int, now: int, lifetime: nat): Rotation {
    if !Decodes(token, decoded) then Rotation(sessions, Err(ExpiredToken))
    else if token.jti >= |sessions| then Rotation(sessions, Err(UnknownSession))
    else
      var session := sessions[token.jti];
      if session.revoked || session.replacedBy.Some? then
        Rotation(RevokeFamily(sessions, token.family), Err(ReuseDetected))
      else if session.expiresAt <= now then Rotation(sessions, Err(ExpiredSession))
      else
        Rotation(Issued(sessions, session.user, token.family, now, lifetime)
                 [token.jti := session.(revoked := true, replacedBy := Some(|sessions|))], Ok(|sessions|))
  }

  function LoggedOut(sessions: seq<Session>, token: Token, decoded: int): seq<Session> {
    if Decodes(token, decoded) && token.jti < |sessions| then sessions[token.jti := Revoke(sessions[token.jti])]
    else sessions
  }

  class RefreshStore {
    var sessions: seq<Session>

    constructor ()
      ensures sessions == []
    {
      sessions := [];
    }

    method IssueRefresh(user: nat, family: nat, now: int, lifetime: nat) returns (token: Token)
      modifies this
      ensures sessions == Issued(old(sessions), user, family, now, lifetime)
      ensures token == TokenFor(sessions, |old(sessions)|)
    {
      var expiresAt := now + lifetime * SECOND;
      var jti := |sessions|;
      sessions := sessions + [Session(user, family, expiresAt, false, None)];
      token := Token(jti, family, expiresAt / SECOND);
    }

    /** Revokes every session of the family that is not revoked yet. */
    method RevokeWholeFamily(family: nat)
      modifies this
      ensures sessions == RevokeFamily(old(sessions), family)
    {
      for i := 0 to |sessions|
        invariant |sessions| == |old(sessions)|
        invariant forall j :: 0 <= j < i ==> sessions[j] == RevokeFamily(old(sessions), family)[j]
        invariant forall j :: i <= j < |sessions| ==> sessions[j] == old(sessions)[j]
      {
        if sessions[i].family == family && !sessions[i].revoked {
          sessions := sessions[i := sessions[i].(revoked := true)];
        }
      }
    }

    method RotateRefresh(token: Token, decoded: int, now: int, lifetime: nat) returns (r: Result<Token, RotationError>)
      modifies this
      ensures sessions == Rotated(old(sessions), token, decoded, now, lifetime).sessions
      ensures match Rotated(old(sessions), token, decoded, now, lifetime).result
              case Err(e) => r == Err(e)
              case Ok(jti) => jti < |sessions| && r == Ok(TokenFor(sessions, jti))
    {
      if !Decodes(token, decoded) {
        return Err(ExpiredToken);
      }
      if token.jti >= |sessions| {
        return Err(UnknownSession);
      }
      var session := sessions[token.jti];
      if session.revoked || session.replacedBy.Some? {
        RevokeWholeFamily(token.family);
        return Err(ReuseDetected);
      }
      if session.expiresAt <= now {
        return Err(ExpiredSession);
      }
      var successor := IssueRefresh(session.user, token.family, now, lifetime);
      sessions := sessions[token.jti := session.(revoked := true, replacedBy := Some(successor.jti))];
      r := Ok(successor);
    }

    method RevokeRefresh(token: Token, decoded: int)
      modifies this
      ensures sessions == LoggedOut(old(sessions), token, decoded)
    {
      if Decodes(token, decoded) && token.jti < |sessions| {
        sessions := sessions[token.jti := sessions[token.jti].(revoked := true)];
      }
    }
  }

  // ---------------------------------------------------------------- runs

  datatype Action =
    | Login(user: nat, elapsed: nat)
    | Rotate(jti: nat, elapsed: nat, age: nat)   // the token was decoded `age` before the transaction
    | Logout(jti: nat, elapsed: nat, age: nat)
    | SecurityReset(user: nat, elapsed: nat)

  datatype State = State(sessions: seq<Session>, now: int)

  // Decoding happens before the transaction, so other transactions may fall in between: `age` is
  // any duration.

  /** A login starts a family of its own, named after its first session. */
  function Next(s: State, a: Action, lifetime: nat): State {
    match a
    case Login(user, elapsed) =>
      State(Issued(s.sessions, user, |s.sessions|, s.now + elapsed, lifetime), s.now + elapsed)
    case Rotate(jti, elapsed, age) =>
      State(if jti < |s.sessions|
            then
              var now := s.now + elapsed;
              Rotated(s.sessions, TokenFor(s.sessions, jti), now - age, now, lifetime).sessions
            else s.sessions, s.now + elapsed)
    case Logout(jti, elapsed, age) =>
      State(if jti < |s.sessions| then LoggedOut(s.sessions, TokenFor(s.sessions, jti), s.now + elapsed - age)
            else s.sessions,
            s.now + elapsed)
    case SecurityReset(user, elapsed) => State(RevokeUser(s.sessions, user), s.now + elapsed)
  }

  function Play(s: State, actions: seq<Action>, lifetime: nat): State {
    if actions == [] then s else Next(Play(s, actions[..|actions| - 1], lifetime), actions[|actions| - 1], lifetime)
  }

  /** Sessions `i` and `j` are neighbours in the issue order of one family. */
  ghost predicate Neighbours(sessions: seq<Session>, i: nat, j: nat) {
    && i < j < |sessions| && sessions[i].family == sessions[j].family
    && forall k :: i < k < j ==> sessions[k].family != sessions[i].family
  }

  ghost predicate LastOfFamily(sessions: seq<Session>, i: nat) {
    i < |sessions| && forall k :: i < k < |sessions| ==> sessions[k].family != sessions[i].family
  }

  /**
   * Every family is one chain: each session but the last is revoked and points at the next one
   * issued in the family, to the same user; the last points nowhere.
   */
  ghost predicate Chained(sessions: seq<Session>) {
    && (forall i :: 0 <= i < |sessions| ==> sessions[i].family <= i)
    && (forall i: nat, j: nat {:trigger Neighbours(sessions, i, j)} :: Neighbours(sessions, i, j) ==>
          sessions[i].replacedBy == Some(j) && sessions[i].revoked && sessions[i].user == sessions[j].user)
    && (forall i: nat {:trigger LastOfFamily(sessions, i)} :: LastOfFamily(sessions, i) ==>
        sessions[i].replacedBy == None)
  }

  /** No session of the family can be used again. */
  ghost predicate Dead(sessions: seq<Session>, family: nat) {
    family < |sessions| && forall i :: 0 <= i < |sessions| && sessions[i].family == family ==> sessions[i].revoked
  }

  lemma {:induction false} NextInFamily(sessions: seq<Session>, i: nat, k: nat) returns (j: nat)
    requires i < k < |sessions| && sessions[i].family == sessions[k].family
    ensures Neighbours(sessions, i, j) && j <= k
    decreases k
  {
    if exists m :: i < m < k && sessions[m].family == sessions[i].family {
      var m :| i < m < k && sessions[m].family == sessions[i].family;
      j := NextInFamily(sessions, i, m);
    } else {
      j := k;
    }
  }

  /** Only the last session of a family can be unrevoked. */
  lemma UnrevokedIsLast(sessions: seq<Session>, i: nat)
    requires Chained(sessions) && i < |sessions| && (!sessions[i].revoked || sessions[i].replacedBy.None?)
    ensures LastOfFamily(sessions, i)
  {
    if k :| i < k < |sessions| && sessions[k].family == sessions[i].family {
      var j := NextInFamily(sessions, i, k);
      assert false;
    }
  }

  /** Changing only revocation upwards keeps the chains. */
  lemma RevokingKeepsChained(a: seq<Session>, b: seq<Session>)
    requires Chained(a) && |a| == |b|
    requires forall i :: 0 <= i < |a| ==> b[i] == a[i] || b[i] == Revoke(a[i])
    ensures Chained(b)
  {
    forall i: nat, j: nat | Neighbours(b, i, j)
      ensures b[i].replacedBy == Some(j) && b[i].revoked && b[i].user == b[j].user
    {
      assert Neighbours(a, i, j) by {
        forall k | i < k < j ensures a[k].family != a[i].family { assert b[k].family != b[i].family; }
      }
    }
    forall i: nat | LastOfFamily(b, i) ensures b[i].replacedBy == None {
      assert LastOfFamily(a, i) by {
        forall k | i < k < |a| ensures a[k].family != a[i].family { assert b[k].family != b[i].family; }
      }
    }
  }

  lemma LoginKeepsChained(a: seq<Session>, user: nat, now: int, lifetime: nat)
    requires Chained(a)
    ensures Chained(Issued(a, user, |a|, now, lifetime))
  {
    var b := Issued(a, user, |a|, now, lifetime);
    hide Neighbours, LastOfFamily;
    forall i: nat, j: nat | Neighbours(b, i, j)
      ensures b[i].replacedBy == Some(j) && b[i].revoked && b[i].user == b[j].user
    {
      NeighboursBefore(a, b[|a|], i, j);
    }
    forall i: nat | LastOfFamily(b, i) ensures b[i].replacedBy == None {
      LastBefore(a, b[|a|], i);
    }
  }

  lemma NeighboursBefore(a: seq<Session>, x: Session, i: nat, j: nat)
    requires (forall k :: 0 <= k < |a| ==> a[k].family < x.family) && Neighbours(a + [x], i, j)
    ensures j < |a| && Neighbours(a, i, j)
  {
    var b := a + [x];
    assert b[i] == a[i] && b[i].family == b[j].family;
    assert j < |a| && b[j] == a[j];
    forall k | i < k < j ensures a[k].family != a[i].family { assert b[k].family != b[i].family; }
  }

  lemma LastBefore(a: seq<Session>, x: Session, i: nat)
    requires LastOfFamily(a + [x], i)
    ensures i == |a| || LastOfFamily(a, i)
  {
    if i < |a| {
      var b := a + [x];
      forall k | i < k < |a| ensures a[k].family != a[i].family { assert b[k].family != b[i].family; }
    }
  }

  /** The last session `at` of a family is replaced by `y` and gets the successor `x`. */
  ghost predicate Appended(a: seq<Session>, b: seq<Session>, at: nat, x: Session, y: Session) {
    && LastOfFamily(a, at) && x.family == a[at].family == y.family
    && b == (a + [x])[at := y]
  }

  lemma NeighboursAfterAppend(a: seq<Session>, b: seq<Session>, at: nat, x: Session, y: Session, i: nat, j: nat)
    requires Appended(a, b, at, x, y) && Neighbours(b, i, j)
    ensures i < j < |b| && ((j < |a| && i != at && Neighbours(a, i, j)) || (j == |a| && i == at))
  {
    assert forall k :: 0 <= k < |a| ==> b[k].family == a[k].family;
    if j < |a| {
      forall k | i < k < j ensures a[k].family != a[i].family { assert b[k].family != b[i].family; }
      assert a[j].family == a[i].family;
    } else if i < at {
      assert false;
    }
  }

  lemma LastAfterAppend(a: seq<Session>, b: seq<Session>, at: nat, x: Session, y: Session, i: nat)
    requires Appended(a, b, at, x, y) && LastOfFamily(b, i)
    ensures i == |a| || (i != at && LastOfFamily(a, i))
  {
    if i < |a| {
      assert b[|a|].family != b[i].family && b[at].family == x.family;
      forall k | i < k < |a| ensures a[k].family != a[i].family { assert b[k].family != b[i].family; }
    }
  }

  lemma RotationKeepsChained(a: seq<Session>, jti: nat, decoded: int, now: int, lifetime: nat)
    requires Chained(a) && jti < |a|
    requires Rotated(a, TokenFor(a, jti), decoded, now, lifetime).result.Ok?
    ensures Chained(Rotated(a, TokenFor(a, jti), decoded, now, lifetime).sessions)
  {
    var b := Rotated(a, TokenFor(a, jti), decoded, now, lifetime).sessions;
    UnrevokedIsLast(a, jti);
    var x, y := b[|a|], b[jti];
    assert Appended(a, b, jti, x, y);
    AppendKeepsChained(a, b, jti, x, y);
  }

  lemma AppendKeepsChained(a: seq<Session>, b: seq<Session>, at: nat, x: Session, y: Session)
    requires Chained(a) && Appended(a, b, at, x, y) && x.replacedBy == None
    requires y == a[at].(revoked := true, replacedBy := Some(|a|)) && x.user == y.user
    ensures Chained(b)
  {
    hide Neighbours;
    forall i: nat, j: nat | Neighbours(b, i, j)
      ensures i < |b| && j < |b| && b[i].replacedBy == Some(j) && b[i].revoked && b[i].user == b[j].user
    {
      NeighboursAfterAppend(a, b, at, x, y, i, j);
      assert b[at] == y && b[|a|] == x && forall k :: 0 <= k < |a| && k != at ==> b[k] == a[k];
    }
    forall i: nat | LastOfFamily(b, i) ensures b[i].replacedBy == None {
      LastAfterAppend(a, b, at, x, y, i);
    }
  }

  lemma NextKeepsChained(s: State, a: Action, lifetime: nat)
    requires Chained(s.sessions)
    ensures Chained(Next(s, a, lifetime).sessions) && s.now <= Next(s, a, lifetime).now
  {
    hide Chained;
    var t := Next(s, a, lifetime);
    match a
    case Login(user, elapsed) => LoginKeepsChained(s.sessions, user, s.now + elapsed, lifetime);
    case Rotate(jti, elapsed, age) =>
      if jti < |s.sessions| {
        if Rotated(s.sessions, TokenFor(s.sessions, jti), s.now + elapsed - age, s.now + elapsed, lifetime).result.Ok? {
          RotationKeepsChained(s.sessions, jti, s.now + elapsed - age, s.now + elapsed, lifetime);
        } else {
          RevokingKeepsChained(s.sessions, t.sessions);
        }
      }
    case Logout(jti, elapsed, age) => RevokingKeepsChained(s.sessions, t.sessions);
    case SecurityReset(user, elapsed) => RevokingKeepsChained(s.sessions, t.sessions);
  }

  /** In every reachable state each family is a linear chain with at most its last session unrevoked. */
  lemma {:induction false} FamiliesAreChains(now: int, actions: seq<Action>, lifetime: nat)
    ensures var s := Play(State([], now), actions, lifetime).sessions;
            && Chained(s)
            && forall i, j :: 0 <= i < |s| && 0 <= j < |s| && s[i].family == s[j].family ==>
                 !s[i].revoked && !s[j].revoked ==> i == j
  {
    hide Next;
    if actions == [] {
      assert Chained([]);
    } else {
      var front := actions[..|actions| - 1];
      FamiliesAreChains(now, front, lifetime);
      NextKeepsChained(Play(State([], now), front, lifetime), actions[|actions| - 1], lifetime);
    }
    var s := Play(State([], now), actions, lifetime).sessions;
    hide Chained, Play;
    forall i, j | 0 <= i < |s| && 0 <= j < |s| && s[i].family == s[j].family && !s[i].revoked && !s[j].revoked
      ensures i == j
    {
      UnrevokedIsLast(s, i);
      UnrevokedIsLast(s, j);
    }
  }

  /** Presenting a used or revoked session while its token still decodes kills its family. */
  lemma ReplayKillsFamily(sessions: seq<Session>, jti: nat, decoded: int, now: int, lifetime: nat)
    requires Chained(sessions) && jti < |sessions| && (sessions[jti].revoked || sessions[jti].replacedBy.Some?)
    requires Decodes(TokenFor(sessions, jti), decoded)
    ensures var r := Rotated(sessions, TokenFor(sessions, jti), decoded, now, lifetime);
            r.result == Err(ReuseDetected) && Dead(r.sessions, sessions[jti].family)
  {
  }

  lemma NextKeepsDead(s: State, a: Action, lifetime: nat, family: nat)
    requires Chained(s.sessions) && Dead(s.sessions, family)
    ensures Dead(Next(s, a, lifetime).sessions, family)
  {
  }

  /**
   * A dead family stays dead: over any later run none of its sessions is ever rotated
   * successfully and it gets no new session that is usable.
   */
  lemma {:induction false} DeadFamilyStaysDead(s: State, actions: seq<Action>, lifetime: nat, family: nat)
    requires Chained(s.sessions) && Dead(s.sessions, family)
    ensures var t := Play(s, actions, lifetime);
            && Chained(t.sessions) && Dead(t.sessions, family)
            && forall jti, decoded, now :: 0 <= jti < |t.sessions| && t.sessions[jti].family == family ==>
                 Rotated(t.sessions, TokenFor(t.sessions, jti), decoded, now, lifetime).result.Err?
  {
    hide Chained, Next;
    if actions != [] {
      var front := actions[..|actions| - 1];
      DeadFamilyStaysDead(s, front, lifetime, family);
      NextKeepsChained(Play(s, front, lifetime), actions[|actions| - 1], lifetime);
      NextKeepsDead(Play(s, front, lifetime), actions[|actions| - 1], lifetime, family);
    }
  }

  lemma {:induction false} PlaySplits(s: State, before: seq<Action>, after: seq<Action>, lifetime: nat)
    ensures Play(s, before + after, lifetime) == Play(Play(s, before, lifetime), after, lifetime)
  {
    hide Next;
    if after == [] {
      assert before + after == before;
    } else {
      assert (before + after)[..|before + after| - 1] == before + after[..|after| - 1];
      PlaySplits(s, before, after[..|after| - 1], lifetime);
    }
  }

  /**
   * Logging out ends the family exactly when the token decodes and is the family's last; with an
   * earlier token of the family the session goes on. No other family changes.
   */
  lemma LogoutEndsFamilyIff(sessions: seq<Session>, jti: nat, decoded: int)
    requires Chained(sessions) && jti < |sessions|
    ensures var r, f := LoggedOut(sessions, TokenFor(sessions, jti), decoded), sessions[jti].family;
            && Chained(r) && |r| == |sessions|
            && (Dead(r, f) <==>
                  Dead(sessions, f) || (Decodes(TokenFor(sessions, jti), decoded) && LastOfFamily(sessions, jti)))
            && forall i :: 0 <= i < |sessions| && sessions[i].family != f ==> r[i] == sessions[i]
  {
    var r, f := LoggedOut(sessions, TokenFor(sessions, jti), decoded), sessions[jti].family;
    RevokingKeepsChained(sessions, r);
    hide Chained;
    if Decodes(TokenFor(sessions, jti), decoded) {
      forall i: nat | i < |sessions| && sessions[i].family == f && !sessions[i].revoked
        ensures LastOfFamily(sessions, i)
      {
        UnrevokedIsLast(sessions, i);
      }
      if LastOfFamily(sessions, jti) {
        forall i | 0 <= i < |sessions| && sessions[i].family == f && i != jti ensures sessions[i].revoked {
          assert !LastOfFamily(sessions, i);
        }
      } else if !Dead(sessions, f) {
        var i :| 0 <= i < |sessions| && sessions[i].family == f && !sessions[i].revoked;
        assert i != jti && r[i] == sessions[i];
      }
    }
  }

  /** After a logout with the family's last token, nobody gets back in with a token of the family. */
  lemma LogoutIsForGood(now: int, before: seq<Action>, jti: nat, elapsed: nat, age: nat, after: seq<Action>,
                        lifetime: nat)
    requires var s := Play(State([], now), before, lifetime);
             && jti < |s.sessions| && LastOfFamily(s.sessions, jti)
             && Decodes(TokenFor(s.sessions, jti), s.now + elapsed - age)
    ensures var f := Play(State([], now), before, lifetime).sessions[jti].family;
            var t := Play(State([], now), before + [Logout(jti, elapsed, age)] + after, lifetime);
            && Dead(t.sessions, f)
            && forall i, decoded, later :: 0 <= i < |t.sessions| && t.sessions[i].family == f ==>
                 Rotated(t.sessions, TokenFor(t.sessions, i), decoded, later, lifetime).result.Err?
  {
    hide Chained, LastOfFamily, Dead, Play, Rotated, Decodes;
    var s := Play(State([], now), before, lifetime);
    var logout := Logout(jti, elapsed, age);
    FamiliesAreChains(now, before, lifetime);
    LogoutEndsFamilyIff(s.sessions, jti, s.now + elapsed - age);
    PlaySplits(State([], now), before + [logout], after, lifetime);
    PlayOneMore(State([], now), before, logout, lifetime);
    DeadFamilyStaysDead(Next(s, logout, lifetime), after, lifetime, s.sessions[jti].family);
  }

  lemma PlayOneMore(s: State, before: seq<Action>, a: Action, lifetime: nat)
    ensures Play(s, before + [a], lifetime) == Next(Play(s, before, lifetime), a, lifetime)
  {
    assert (before + [a])[..|before|] == before;
  }

  /** The sessions of one family belong to one user. */
  lemma {:induction false} FamilyHasOneUser(sessions: seq<Session>, i: nat, k: nat)
    requires Chained(sessions) && i < k < |sessions| && sessions[i].family == sessions[k].family
    ensures sessions[i].user == sessions[k].user
    decreases k - i
  {
    var j := NextInFamily(sessions, i, k);
    if j < k { FamilyHasOneUser(sessions, j, k); }
  }

  lemma ResetKillsFamily(sessions: seq<Session>, jti: nat)
    requires Chained(sessions) && jti < |sessions|
    ensures var r, f := RevokeUser(sessions, sessions[jti].user), sessions[jti].family;
            Chained(r) && Dead(r, f)
  {
    var r, x := RevokeUser(sessions, sessions[jti].user), sessions[jti];
    RevokingKeepsChained(sessions, r);
    assert x.family < |sessions|;
    hide Chained, RevokeUser;
    forall i | 0 <= i < |sessions| && sessions[i].family == x.family ensures sessions[i].user == x.user {
      if i < jti { FamilyHasOneUser(sessions, i, jti); }
      if jti < i { FamilyHasOneUser(sessions, jti, i); }
    }
  }

  /**
   * A security reset locks out every token its user held, in every later run: no rotation in their
   * families succeeds again. It touches no session of another user.
   */
  lemma SecurityResetIsForGood(now: int, before: seq<Action>, user: nat, elapsed: nat, after: seq<Action>,
                               lifetime: nat, jti: nat)
    requires var s := Play(State([], now), before, lifetime);
             jti < |s.sessions| && s.sessions[jti].user == user
    ensures var s := Play(State([], now), before, lifetime);
            var r := Play(State([], now), before + [SecurityReset(user, elapsed)], lifetime);
            var t := Play(State([], now), before + [SecurityReset(user, elapsed)] + after, lifetime);
            && |r.sessions| == |s.sessions|
            && (forall i :: 0 <= i < |s.sessions| && s.sessions[i].user != user ==> r.sessions[i] == s.sessions[i])
            && forall i, decoded, later :: 0 <= i < |t.sessions| && t.sessions[i].family == s.sessions[jti].family ==>
                 Rotated(t.sessions, TokenFor(t.sessions, i), decoded, later, lifetime).result.Err?
  {
    hide Chained, Dead, Play, Rotated;
    var s := Play(State([], now), before, lifetime);
    var reset := SecurityReset(user, elapsed);
    FamiliesAreChains(now, before, lifetime);
    ResetKillsFamily(s.sessions, jti);
    PlaySplits(State([], now), before + [reset], after, lifetime);
    PlayOneMore(State([], now), before, reset, lifetime);
    DeadFamilyStaysDead(Next(s, reset, lifetime), after, lifetime, s.sessions[jti].family);
  }

  /** Rotation succeeds exactly for an unused, unrevoked session within both of its expiries. */
  lemma RotationSucceedsIff(sessions: seq<Session>, jti: nat, decoded: int, now: int, lifetime: nat)
    requires Chained(sessions) && jti < |sessions|
    ensures var r, x := Rotated(sessions, TokenFor(sessions, jti), decoded, now, lifetime), sessions[jti];
            && (r.result.Ok? <==> !x.revoked && decoded < x.expiresAt / SECOND * SECOND && now < x.expiresAt)
            && (r.result.Ok? ==> (|r.sessions| == |sessions| + 1 && !r.sessions[|sessions|].revoked
                  && r.sessions[|sessions|].family == x.family && r.sessions[|sessions|].user == x.user
                  && forall i :: 0 <= i < |sessions| && sessions[i].family == x.family ==> r.sessions[i].revoked))
  {
    var x := sessions[jti];
    if x.replacedBy.Some? && !x.revoked { UnrevokedIsLast(sessions, jti); }
    if !x.revoked {
      UnrevokedIsLast(sessions, jti);
      forall i | 0 <= i < |sessions| && sessions[i].family == x.family && i != jti ensures sessions[i].revoked {
        if !sessions[i].revoked { UnrevokedIsLast(sessions, i); }
      }
    }
  }

  /**
   * Whatever is presented, no other family is touched: its sessions stay as they were, and a new
   * session belongs to the family presented.
   */
  lemma RotationSparesOthers(sessions: seq<Session>, jti: nat, decoded: int, now: int, lifetime: nat)
    requires jti < |sessions|
    ensures var r, family := Rotated(sessions, TokenFor(sessions, jti), decoded, now, lifetime), sessions[jti].family;
            && |sessions| <= |r.sessions| <= |sessions| + 1
            && (forall i :: 0 <= i < |sessions| && sessions[i].family != family ==> r.sessions[i] == sessions[i])
            && (forall i :: 0 <= i < |sessions| && sessions[i].revoked ==> r.sessions[i] == sessions[i])
            && (|r.sessions| > |sessions| ==>
                  && r.result == Ok(|sessions|) && r.sessions[|sessions|].family == family
                  && r.sessions[|sessions|].expiresAt == now + lifetime * 1000000)
            && (r.result.Err? ==>
                  && |r.sessions| == |sessions|
                  && (r.result != Err(ReuseDetected) ==> r.sessions == sessions))
  {
  }

  /** Time passes with every action, and decoding lies as far back as the action says. */
  lemma TimePasses(s: State, a: Action, lifetime: nat)
    ensures Next(s, a, lifetime).now == s.now + a.elapsed
    ensures a.Logout? && a.jti < |s.sessions| ==>
              Next(s, a, lifetime).sessions
              == LoggedOut(s.sessions, TokenFor(s.sessions, a.jti), s.now + a.elapsed - a.age)
    ensures a.Rotate? && a.jti < |s.sessions| ==>
              var now := s.now + a.elapsed;
              Next(s, a, lifetime).sessions
              == Rotated(s.sessions, TokenFor(s.sessions, a.jti), now - a.age, now, lifetime).sessions
  {
  }

  /**
   * When a used session comes back, its family ends up dead exactly when it was dead before or
   * the token is presented before its expiry second: later replays are not noticed.
   */
  lemma ReplayIsNoticedIff(sessions: seq<Session>, jti: nat, decoded: int, now: int, lifetime: nat)
    requires Chained(sessions) && jti < |sessions| && sessions[jti].revoked
    ensures var r, f := Rotated(sessions, TokenFor(sessions, jti), decoded, now, lifetime), sessions[jti].family;
            Dead(r.sessions, f) <==> Dead(sessions, f) || decoded < sessions[jti].expiresAt / SECOND * SECOND
  {
  }

  /** A run in which a used token is replayed past its expiry and the family lives on. */
  lemma LateReplayGoesUnnoticed(lifetime: nat)
    requires lifetime > 1
    ensures var actions := [Login(7, 0), Rotate(0, SECOND, 0), Rotate(0, (lifetime - 1) * SECOND, 0)];
            var s := Play(State([], 0), actions, lifetime).sessions;
            |s| == 2 && s[0].replacedBy == Some(1) && !s[1].revoked && !Dead(s, 0)
  {
    var a0, a1, a2 := Login(7, 0), Rotate(0, SECOND, 0), Rotate(0, (lifetime - 1) * SECOND, 0);
    var first := Session(7, 0, lifetime * SECOND, false, None);
    var second := Session(7, 0, SECOND + lifetime * SECOND, false, None);
    var used := first.(revoked := true, replacedBy := Some(1));
    hide *;
    PlayThree(State([], 0), a0, a1, a2, lifetime);
    LateReplaySteps(lifetime, first, second, used);
  }

  lemma LateReplaySteps(lifetime: nat, first: Session, second: Session, used: Session)
    requires lifetime > 1
    requires first == Session(7, 0, lifetime * SECOND, false, None)
    requires second == Session(7, 0, SECOND + lifetime * SECOND, false, None)
    requires used == first.(revoked := true, replacedBy := Some(1))
    ensures Next(State([], 0), Login(7, 0), lifetime) == State([first], 0)
    ensures Next(State([first], 0), Rotate(0, SECOND, 0), lifetime) == State([used, second], SECOND)
    ensures Next(State([used, second], SECOND), Rotate(0, (lifetime - 1) * SECOND, 0), lifetime)
         == State([used, second], lifetime * SECOND)
    ensures !Dead([used, second], 0)
  {
    assert lifetime * SECOND / SECOND == lifetime;
    assert [used, second][1].family == 0 && !second.revoked;
  }

  lemma PlayThree(s: State, a: Action, b: Action, c: Action, lifetime: nat)
    ensures Play(s, [a, b, c], lifetime) == Next(Next(Next(s, a, lifetime), b, lifetime), c, lifetime)
  {
    hide Next;
    assert [a, b, c][..2] == [a, b] && [a, b][..1] == [a] && [a][..0] == [];
    assert Play(s, [a], lifetime) == Next(s, a, lifetime);
    assert Play(s, [a, b], lifetime) == Next(Play(s, [a], lifetime), b, lifetime);
  }
}
