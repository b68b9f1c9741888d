/**
 * AuthService together with the account methods of UsersService it relies on, one call at a time,
 * over the users, refresh_tokens and sessions collections and the blacklist.
 */
module AuthService {
  import opened Common
  import opened Lockout
  import RT = RefreshTokens
  import Blacklist
  import Sessions
  import TS = TrustStore

  datatype User = User(account: Account, mustChangePassword: bool)

  datatype AuthError = InvalidCredentials | Deactivated | Locked | InvalidToken | TokenExpired | NotRequired
    | UserNotFound | DuplicateToken

  /** The users after an event of the lockout model on one account. */
  function WithAccount(users: map<string, User>, userId: string, e: Event): map<string, User>
    requires userId in users
  {
    users[userId := users[userId].(account := Step(users[userId].account, e))]
  }

  /** What a rotation leaves of the token store: the old token revoked, the new one added on success. */
  function AfterRefresh(tokens: map<string, RT.Token>, hash: string, rotates: bool, newHash: string,
          expiresAt: int): map<string, RT.Token>
    requires hash in tokens
  {
    var revoked := RT.RevokeHash(tokens, hash);
    if rotates then revoked[newHash := RT.Token(tokens[hash].userId, tokens[hash].family, false, expiresAt)]
        else revoked
  }

  /** The rotation method's effect is that of one uninterrupted request of the concurrent model. */
  lemma RefreshIsARun(s: RT.State, id: nat, hash: string, a: RT.Action)
    requires id !in s.processes && a.Advance? && a.id == id && a.passes && a.newHash !in s.tokens
    requires hash in s.tokens && !s.tokens[hash].isRevoked && a.now <= s.tokens[hash].expiresAt
    ensures var s' := RT.Apply(RT.Apply(RT.Apply(RT.Apply(RT.Apply(s, RT.StartRefresh(id, hash)), a), a), a), a);
      && s'.tokens == AfterRefresh(s.tokens, hash, true, a.newHash, a.expiresAt)
      && s'.processes == s.processes[id := RT.Done] && s'.late == s.late && s'.redeemed == s.redeemed + multiset{hash}
  {
    var token := s.tokens[hash];
    RT.AfterFind(s, id, hash, a);
    var s2 := RT.Move(s, id, RT.SaveRevoked(hash, token));
    RT.AfterSave(s2, id, hash, token, a);
    var s3 := RT.Apply(s2, a);
    RT.AfterStore(s3, id, a);
    assert s3.processes[id := RT.Done] == s.processes[id := RT.Done];
  }

  class Service {
    var users: map<string, User>
    var tokens: map<string, RT.Token>
    var blacklist: Blacklist.Keys
    /** How many logins have stored a token, which also numbers their families. */
    var logins: nat
    const sessions: Sessions.SessionsService

    ghost predicate Valid()
      reads this, sessions
    {
      sessions.Valid() && forall u :: u in users ==> AccountOk(users[u].account)
    }

    constructor (users: map<string, User>, sessions: Sessions.SessionsService)
      requires sessions.Valid() && forall u :: u in users ==> AccountOk(users[u].account)
      ensures Valid() && this.users == users && tokens == map[] && blacklist == map[] && logins == 0
      ensures this.sessions == sessions
    {
      this.users, this.tokens, this.blacklist, this.logins, this.sessions := users, map[], map[], 0, sessions;
    }

    /** isAccountLocked: an expired lock is cleared on the way. */
    method IsAccountLocked(userId: string, now: int) returns (locked: bool)
      requires Valid() && userId in users
      modifies this`users
      ensures Valid()
      ensures var was := old(users)[userId].account;
        && (locked <==> was.lockoutUntil.Some? && now <= was.lockoutUntil.value)
        && users == old(users)[userId := old(users)[userId].(account :=
             if was.lockoutUntil.Some? && !locked then was.(failedLoginAttempts := 0, lockoutUntil := None) else was)]
      ensures users[userId].account == AfterLockCheck(old(users)[userId].account, now)
    {
      var account := users[userId].account;
      assert users[userId := users[userId]] == users;
      if account.lockoutUntil.None? { return false; }
      if now > account.lockoutUntil.value {
        users := users[userId := users[userId].(account := account.(lockoutUntil := None, failedLoginAttempts := 0))];
        return false;
      }
      return true;
    }

    /**
     * recordLoginAttempt. The lockout invariant holds afterwards if, as in login, a failure is only
     * recorded for an account that isAccountLocked has let through.
     */
    method RecordLoginAttempt(userId: string, success: bool, now: int)
      requires Valid()
      modifies this`users
      ensures success || userId !in old(users) || old(users)[userId].account.lockoutUntil.None? ==> Valid()
      ensures userId !in old(users) ==> users == old(users)
      ensures userId in old(users) ==>
        var was := old(users)[userId].account;
        var attempts := if success then 0 else was.failedLoginAttempts + 1;
        var lock := if success then None else if attempts >= 5 then Some(now + 1800000) else was.lockoutUntil;
        users == old(users)[userId := old(users)[userId].(account :=
          was.(failedLoginAttempts := attempts, lockoutUntil := lock))]
    {
      if userId !in users { return; }
      var account := users[userId].account;
      if success {
        account := account.(failedLoginAttempts := 0, lockoutUntil := None);
      } else {
        account := account.(failedLoginAttempts := account.failedLoginAttempts + 1);
        if account.failedLoginAttempts >= MAX_FAILED_LOGIN_ATTEMPTS {
          account := account.(lockoutUntil := Some(now + LOCKOUT_MS));
        }
      }
      users := users[userId := users[userId].(account := account)];
    }

    /**
     * login, for the account found by e-mail; `correct` is the answer of bcrypt. The password is
     * compared on an active account without a lock or with a lapsed one: a right one clears the counter
     * and the lock, a wrong one counts, from nothing after a lapsed lock, and the fifth locks.
     */
    method Login(user: Option<string>, t1: int, t2: int, t3: int, correct: bool, newHash: string, expiresAt: int)
      returns (r: Result<string, AuthError>)
      requires Valid() && (user.Some? ==> user.value in users)
      modifies this
      ensures Valid() && blacklist == old(blacklist)
      ensures user.None? ==> users == old(users)
      ensures user.Some? ==> users == old(users)[user.value := old(users)[user.value].(account :=
        Step(old(users)[user.value].account, Event.Login(t1, t2, t3, correct)))]
      ensures user.Some? ==>
        var was, now := old(users)[user.value].account, users[user.value].account;
        var compared := was.isActive && (was.lockoutUntil.None? || t1 > was.lockoutUntil.value);
        var wrong := 1 + if was.lockoutUntil.Some? then 0 else was.failedLoginAttempts;
        && (r.Ok? <==> compared && correct && newHash !in old(tokens))
        && (r == Err(Deactivated) <==> !was.isActive)
        && (r == Err(Locked) <==> was.isActive && !compared)
        && (r == Err(InvalidCredentials) <==> compared && !correct)
        && (!compared ==> now == was)
        && (compared && correct ==> now == was.(failedLoginAttempts := 0, lockoutUntil := None))
        && (compared && !correct ==>
              now == was.(failedLoginAttempts := wrong,
                          lockoutUntil := if wrong >= 5 then Some(t3 + 1800000) else None))
      ensures user.None? ==> r == Err(InvalidCredentials)
      ensures r.Ok? ==> r.value == newHash && logins == old(logins) + 1
      ensures r.Ok? ==> tokens == old(tokens)[newHash := RT.Token(user.value, old(logins), false, expiresAt)]
      ensures r.Err? ==> tokens == old(tokens) && logins == old(logins)
    {
      if user.None? { return Err(InvalidCredentials); }
      var userId := user.value;
      assert users[userId := users[userId]] == users;
      if !users[userId].account.isActive { return Err(Deactivated); }
      var locked := IsAccountLocked(userId, t1);
      if locked { return Err(Locked); }
      RecordLoginAttempt(userId, correct, t3);
      if !correct { return Err(InvalidCredentials); }
      if newHash in tokens { return Err(DuplicateToken); }
      tokens := tokens[newHash := RT.Token(userId, logins, false, expiresAt)];
      logins := logins + 1;
      return Ok(newHash);
    }

    predicate IsActive(userId: string)
      reads this`users
    {
      userId in users && users[userId].account.isActive
    }

    /**
     * certificateLogin, with the answer of verifyCertificate on `db` as `verdict`. A login it lets
     * through is for the active owner of a device that is APPROVED in `db`; it stores one refresh
     * token and leaves that user one active session on that device, the new one.
     */
    method CertificateLogin(ghost db: TS.Db, ghost pem: TS.Pem, ghost fp: string, ghost now: int, verdict: TS.Verdict,
            newHash: string, expiresAt: int, sessionId: string, time: int)
      returns (r: Result<string, AuthError>)
      requires Valid() && sessionId !in sessions.sessions
      requires TS.Sound(db) && TS.MayAnswer(db, pem, fp, now, verdict)
      modifies this`tokens, this`logins, sessions
      ensures Valid()
      ensures r.Ok? <==>
        verdict.Valid? && verdict.userId in users && users[verdict.userId].account.isActive && newHash !in old(tokens)
      ensures r.Ok? ==> TS.Trustworthy(db, verdict.serialNumber, pem, fp, now)
      ensures r.Ok? ==>
        var device := db.devices[verdict.deviceId];
        device.status == TS.APPROVED && device.userId == verdict.userId && device.employeeId == verdict.employeeId
      ensures r.Ok? ==> tokens == old(tokens)[newHash := RT.Token(verdict.userId, old(logins), false, expiresAt)]
      ensures r.Ok? ==> logins == old(logins) + 1
      ensures r.Ok? ==>
        forall id ::
          (id in sessions.sessions && Sessions.ActiveOn(sessions.sessions[id], verdict.userId, verdict.deviceId))
          <==> id == sessionId
      ensures r.Ok? ==>
        && sessions.sessions.Keys == old(sessions.sessions).Keys + {sessionId}
        && sessions.sessions[sessionId] == Sessions.Session(verdict.userId, verdict.deviceId, true, time, None)
        && forall id :: id in old(sessions.sessions) ==>
          var was := old(sessions.sessions)[id];
          sessions.sessions[id] ==
            if was.isActive && was.userId == verdict.userId && was.deviceId == verdict.deviceId
            then was.(isActive := false, endedAt := Some(time)) else was
      ensures r.Err? ==> tokens == old(tokens) && logins == old(logins) && sessions.sessions == old(sessions.sessions)
      ensures r.Err? ==>
        r.error == if verdict.Invalid? then InvalidCredentials else if verdict.userId !in users then UserNotFound
                   else if !users[verdict.userId].account.isActive then Deactivated else DuplicateToken
    {
      if verdict.Invalid? { return Err(InvalidCredentials); }
      if verdict.userId !in users { return Err(UserNotFound); }
      if !users[verdict.userId].account.isActive { return Err(Deactivated); }
      if newHash in tokens { return Err(DuplicateToken); }
      tokens := tokens[newHash := RT.Token(verdict.userId, logins, false, expiresAt)];
      logins := logins + 1;
      sessions.CreateSession(sessionId, verdict.userId, verdict.deviceId, time);
      TS.ValidOnlyWhenTrustworthy(db, pem, fp, now, verdict);
      return Ok(newHash);
    }

    /** refreshTokens: the old token is spent even when the user turns out to be inactive. */
    method RefreshTokens(hash: string, now: int, newHash: string, expiresAt: int) returns (r: Result<string, AuthError>)
      requires Valid()
      modifies this`tokens
      ensures Valid()
      ensures r == Err(InvalidToken) <==> hash !in old(tokens) || old(tokens)[hash].isRevoked
      ensures r == Err(TokenExpired) <==>
        hash in old(tokens) && !old(tokens)[hash].isRevoked && now > old(tokens)[hash].expiresAt
      ensures var usable := hash in old(tokens) && !old(tokens)[hash].isRevoked && now <= old(tokens)[hash].expiresAt;
        && (r.Ok? <==> usable && newHash !in old(tokens) && IsActive(old(tokens)[hash].userId))
        && tokens == if usable then AfterRefresh(old(tokens), hash, r.Ok?, newHash, expiresAt) else old(tokens)
      ensures r.Ok? ==> r.value == newHash && hash in tokens && tokens[hash].isRevoked
      ensures r.Ok? ==>
        var was := old(tokens)[hash];
        tokens == old(tokens)[hash := was.(isRevoked := true)][newHash :=
          RT.Token(was.userId, was.family, false, expiresAt)]
      ensures r.Err? && r.error in {UserNotFound, DuplicateToken} ==>
        hash in old(tokens) && tokens == old(tokens)[hash := old(tokens)[hash].(isRevoked := true)]
    {
      if hash !in tokens || tokens[hash].isRevoked { return Err(InvalidToken); }
      var stored := tokens[hash];
      if now > stored.expiresAt { return Err(TokenExpired); }
      tokens := RT.RevokeHash(tokens, hash);
      if stored.userId !in users || !users[stored.userId].account.isActive { return Err(UserNotFound); }
      if newHash in tokens { return Err(DuplicateToken); }
      tokens := tokens[newHash := RT.Token(stored.userId, stored.family, false, expiresAt)];
      return Ok(newHash);
    }

    /** logout; `stores` is whether Redis takes the key, which logout does not report. */
    method Logout(userId: string, accessToken: string, exp: Option<int>, refreshHash: Option<string>, now: int,
            written: int, stores: bool)
      requires Valid() && 0 <= now <= written
      modifies this, sessions
      ensures Valid() && users == old(users) && logins == old(logins)
      ensures blacklist == Blacklist.AfterLogout(old(blacklist), accessToken, exp, now, written, stores)
      ensures blacklist == if accessToken != "" && exp.Some? && exp.value != 0 && exp.value > now / 1000 && stores
        then old(blacklist)["bl:token:" + accessToken := written + (exp.value - now / 1000) * 1000] else old(blacklist)
      ensures accessToken != "" && exp.Some? && stores ==>
        forall later :: later >= written ==> !Blacklist.Admits(blacklist, Blacklist.SCHEME + accessToken, exp, later)
      ensures tokens == if refreshHash.Some? && refreshHash.value in old(tokens)
                        then old(tokens)[refreshHash.value := old(tokens)[refreshHash.value].(isRevoked := true)]
                        else old(tokens)
      ensures sessions.sessions == Sessions.EndActive(old(sessions.sessions), Some(userId), None, written)
      ensures Sessions.Active(sessions.sessions, userId) == {}
    {
      if accessToken != "" && exp.Some? && exp.value != 0 {
        var ttl := exp.value - now / 1000;
        if ttl > 0 && stores { blacklist := blacklist[Blacklist.PREFIX + accessToken := written + ttl * 1000]; }
      }
      if accessToken != "" && exp.Some? && stores {
        forall later | later >= written
          ensures !Blacklist.Admits(blacklist, Blacklist.SCHEME + accessToken, exp, later)
        {
          Blacklist.NoBlacklistGap(old(blacklist), accessToken, exp.value, now, written, later);
        }
      }
      if refreshHash.Some? { tokens := RT.RevokeHash(tokens, refreshHash.value); }
      sessions.EndAllUserSessions(userId, written);
    }

    method RevokeAllTokens(userId: string)
      requires Valid()
      modifies this`tokens
      ensures Valid() && tokens == RT.RevokeUser(old(tokens), userId) && RT.Live(tokens, RT.OfUser(userId)) == {}
      ensures tokens.Keys == old(tokens).Keys && forall h :: h in tokens ==>
        var was := old(tokens)[h];
        tokens[h] == was.(isRevoked := was.isRevoked || was.userId == userId)
      ensures forall other :: other != userId ==>
        RT.Live(tokens, RT.OfUser(other)) == RT.Live(old(tokens), RT.OfUser(other))
    {
      tokens := RT.RevokeUser(tokens, userId);
    }

    method ChangePassword(userId: string, currentCorrect: bool) returns (r: Result<(), AuthError>)
      requires Valid()
      modifies this`users, this`tokens
      ensures Valid()
      ensures r.Ok? <==> userId in old(users) && currentCorrect
      ensures r == Err(UserNotFound) <==> userId !in old(users)
      ensures r == Err(InvalidCredentials) <==> userId in old(users) && !currentCorrect
      ensures r.Ok? ==> users == old(users)[userId := old(users)[userId].(mustChangePassword := false)]
      ensures r.Ok? ==> tokens == RT.RevokeUser(old(tokens), userId) && RT.Live(tokens, RT.OfUser(userId)) == {}
      ensures r.Err? ==> users == old(users) && tokens == old(tokens)
    {
      if userId !in users { return Err(UserNotFound); }
      if !currentCorrect { return Err(InvalidCredentials); }
      users := users[userId := users[userId].(mustChangePassword := false)];
      RevokeAllTokens(userId);
      return Ok(());
    }

    /**
     * The refresh token this returns is not stored. It refreshes nothing even when a login of the
     * user in the same second has stored the identical token, which is revoked with the others.
     */
    method ForceChangePassword(userId: string, temporaryCorrect: bool, newHash: string)
      returns (r: Result<string, AuthError>)
      requires Valid()
      modifies this`users, this`tokens
      ensures Valid()
      ensures r.Ok? <==> userId in old(users) && old(users)[userId].mustChangePassword && temporaryCorrect
      ensures r == Err(UserNotFound) <==> userId !in old(users)
      ensures r == Err(NotRequired) <==> userId in old(users) && !old(users)[userId].mustChangePassword
      ensures r.Err? ==> r.error in {UserNotFound, NotRequired, InvalidCredentials}
      ensures r.Ok? ==> r.value == newHash && tokens.Keys == old(tokens.Keys)
      ensures r.Ok? ==> RT.Live(tokens, RT.OfUser(userId)) == {}
      ensures r.Ok? && newHash in tokens && tokens[newHash].userId == userId ==> tokens[newHash].isRevoked
      ensures r.Ok? ==> users == old(users)[userId := old(users)[userId].(mustChangePassword := false)]
      ensures r.Ok? ==> tokens == RT.RevokeUser(old(tokens), userId)
      ensures r.Err? ==> users == old(users) && tokens == old(tokens)
    {
      if userId !in users { return Err(UserNotFound); }
      if !users[userId].mustChangePassword { return Err(NotRequired); }
      if !temporaryCorrect { return Err(InvalidCredentials); }
      users := users[userId := users[userId].(mustChangePassword := false)];
      RevokeAllTokens(userId);
      return Ok(newHash);
    }

    method ActivateUser(userId: string, now: int) returns (found: bool)
      requires Valid()
      modifies this`users
      ensures Valid() && found == (userId in old(users))
      ensures users == if found then WithAccount(old(users), userId, SetActive(now, true)) else old(users)
      ensures found ==> users[userId] == old(users)[userId].(account := Account(true, 0, None))
    {
      found := userId in users;
      if found {
        var account := users[userId].account.(isActive := true, lockoutUntil := None, failedLoginAttempts := 0);
        users := users[userId := users[userId].(account := account)];
      }
    }

    /** Deactivating keeps the failure counter and the lock. */
    method DeactivateUser(userId: string, now: int) returns (found: bool)
      requires Valid()
      modifies this`users, this`tokens
      ensures Valid() && found == (userId in old(users))
      ensures users == if found then WithAccount(old(users), userId, SetActive(now, false)) else old(users)
      ensures found ==>
        users[userId] == old(users)[userId].(account := old(users)[userId].account.(isActive := false))
      ensures found ==> tokens == RT.RevokeUser(old(tokens), userId) && RT.Live(tokens, RT.OfUser(userId)) == {}
      ensures !found ==> tokens == old(tokens)
    {
      found := userId in users;
      if found {
        users := users[userId := users[userId].(account := users[userId].account.(isActive := false))];
        RevokeAllTokens(userId);
      }
    }

    method ResetPassword(userId: string, now: int) returns (found: bool)
      requires Valid()
      modifies this`users, this`tokens
      ensures Valid() && found == (userId in old(users))
      ensures users == if found
          then old(users)[userId := User(Account(old(users)[userId].account.isActive, 0, None), true)] else old(users)
      ensures found ==> users[userId].account == Step(old(users)[userId].account, ResetByAdmin(now))
      ensures found ==> tokens == RT.RevokeUser(old(tokens), userId) && RT.Live(tokens, RT.OfUser(userId)) == {}
      ensures !found ==> tokens == old(tokens)
    {
      found := userId in users;
      if found {
        users := users[userId := User(users[userId].account.(failedLoginAttempts := 0, lockoutUntil := None), true)];
        RevokeAllTokens(userId);
      }
    }
  }
}
