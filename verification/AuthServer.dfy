/** The handlers as statements over the tables, each proved to be its step of the transition system. */
module AuthServer {
  import opened Wrappers
  import opened Sessions

  /** The rows and keys of these sessions and users ended, in one go. */
  function EndAll(s: State, sids: set<Id>, users: set<Id>): State {
    Blacklist(Revoke(s, BackChannelRows(s, sids, users)), BackChannelKeys(sids, users))
  }

  lemma {:induction false} EndNothing(s: State)
    ensures EndAll(s, {}, {}) == s
  {
    assert Revoke(s, {}).refresh == s.refresh;
    assert BackChannelKeys({}, {}) == {};
    assert Blacklist(s, {}).revocations == s.revocations;
  }

  lemma {:induction false} RevokeTwice(s: State, a: set<Id>, b: set<Id>)
    ensures Revoke(Revoke(s, a), b) == Revoke(s, a + b)
  {
    assert Revoke(Revoke(s, a), b).refresh == Revoke(s, a + b).refresh;
  }

  lemma {:induction false} BlacklistTwice(s: State, a: set<Key>, b: set<Key>)
    ensures Blacklist(Blacklist(s, a), b) == Blacklist(s, a + b)
  {
    assert Blacklist(Blacklist(s, a), b).revocations == Blacklist(s, a + b).revocations;
  }

  lemma {:induction false} RevokeUnderBlacklist(s: State, keys: set<Key>, rows: set<Id>)
    ensures Revoke(Blacklist(s, keys), rows) == Blacklist(Revoke(s, rows), keys)
  {
    assert Revoke(Blacklist(s, keys), rows).refresh == Revoke(s, rows).refresh;
  }

  /** Ending more rows and keys on top of EndAll ends the unions. */
  lemma {:induction false} EndMore(s: State, sids: set<Id>, users: set<Id>, rows: set<Id>, k: Key)
    ensures Blacklist(Revoke(EndAll(s, sids, users), rows), {k})
      == Blacklist(Revoke(s, BackChannelRows(s, sids, users) + rows), BackChannelKeys(sids, users) + {k})
  {
    EndMoreRows(s, BackChannelRows(s, sids, users), BackChannelKeys(sids, users), rows, k);
  }

  lemma {:induction false} EndMoreRows(s: State, ended: set<Id>, keys: set<Key>, rows: set<Id>, k: Key)
    ensures Blacklist(Revoke(Blacklist(Revoke(s, ended), keys), rows), {k}) == Blacklist(Revoke(s, ended + rows), keys + {k})
  {
    RevokeUnderBlacklist(Revoke(s, ended), keys, rows);
    RevokeTwice(s, ended, rows);
    BlacklistTwice(Revoke(s, ended + rows), keys, {k});
  }

  lemma {:induction false} EndOneSid(s: State, sids: set<Id>, sid: Id)
    ensures
      var v := EndAll(s, sids, {});
      Blacklist(Revoke(v, LiveRowsOfSid(v, sid)), {SidKey(sid)}) == EndAll(s, sids + {sid}, {})
  {
    var v := EndAll(s, sids, {});
    EndMore(s, sids, {}, LiveRowsOfSid(v, sid), SidKey(sid));
    assert BackChannelRows(s, sids, {}) + LiveRowsOfSid(v, sid) == BackChannelRows(s, sids + {sid}, {});
    assert BackChannelKeys(sids, {}) + {SidKey(sid)} == BackChannelKeys(sids + {sid}, {});
  }

  lemma {:induction false} EndOneUser(s: State, sids: set<Id>, users: set<Id>, user: Id)
    ensures
      var v := EndAll(s, sids, users);
      Blacklist(Revoke(v, LiveRowsOfUser(v, user) - {}), {UserKey(user)}) == EndAll(s, sids, users + {user})
  {
    var v := EndAll(s, sids, users);
    EndMore(s, sids, users, LiveRowsOfUser(v, user) - {}, UserKey(user));
    assert BackChannelRows(s, sids, users) + (LiveRowsOfUser(v, user) - {}) == BackChannelRows(s, sids, users + {user});
    assert BackChannelKeys(sids, users) + {UserKey(user)} == BackChannelKeys(sids, users + {user});
  }

  class Server {
    const cfg: Config
    var now: nat
    var next: Id
    var users: map<Id, bool>
    var identities: map<Id, IdentityRow>
    var refresh: map<Id, RefreshRow>
    var revocations: map<Key, Revocation>
    var accessTokens: set<AccessToken>
    var refreshTokens: set<RefreshToken>
    ghost var owners: map<Id, Id>

    ghost function View(): State
      reads this
    {
      State(now, next, users, identities, refresh, revocations, accessTokens, refreshTokens, owners)
    }

    constructor (cfg: Config)
      ensures this.cfg == cfg && View() == INIT
    {
      this.cfg := cfg;
      now, next, users, identities, refresh, revocations := 0, 0, map[], map[], map[], map[];
      accessTokens, refreshTokens, owners := {}, {}, map[];
    }

    // ----- sessions.ts -----

    method RevokeRefreshBySid(sid: Id)
      modifies this`refresh
      ensures View() == Revoke(old(View()), LiveRowsOfSid(old(View()), sid))
    {
      refresh := map j | j in refresh ::
        if refresh[j].sid == Some(sid) && refresh[j].revokedAt.None? then refresh[j].(revokedAt := Some(now)) else refresh[j];
    }

    method RevokeRefreshByUser(user: Id, spared: set<Id>)
      modifies this`refresh
      ensures View() == Revoke(old(View()), LiveRowsOfUser(old(View()), user) - spared)
    {
      refresh := map j | j in refresh ::
        if refresh[j].userId == user && refresh[j].revokedAt.None? && j !in spared
        then refresh[j].(revokedAt := Some(now)) else refresh[j];
    }

    method IssueTokens(user: Id, sid: Option<Id>) returns (access: AccessToken, refreshToken: RefreshToken)
      modifies this`next, this`refresh, this`accessTokens, this`refreshTokens
      ensures Outcome(View(), Minted(access, refreshToken)) == Mint(cfg, old(View()), user, sid)
    {
      var jti := next;
      next := next + 1;
      refreshToken := RefreshToken(user, jti, now / 1000, now / 1000 + cfg.refreshTtl);
      refreshTokens := refreshTokens + {refreshToken};
      refresh := refresh[jti := RefreshRow(user, now + REFRESH_ROW_TTL_MS, None, None, sid)];
      access := AccessToken(user, sid, now / 1000, now / 1000 + cfg.accessTtl);
      accessTokens := accessTokens + {access};
    }

    // ----- vibeAuth.ts -----

    method RevokeKey(k: Key)
      modifies this`revocations
      ensures View() == Blacklist(old(View()), {k})
    {
      revocations := revocations[k := Revocation(now, now + SID_REVOKE_TTL_MS)];
    }

    method EndSsoSession(sid: Id)
      modifies this`identities, this`refresh, this`revocations
      ensures View() == EndSso(old(View()), sid)
    {
      identities := identities - {sid};
      RevokeRefreshBySid(sid);
      RevokeKey(SidKey(sid));
    }

    /** The sweep's NOT EXISTS: is there a live refresh row for this sid? */
    predicate HasLiveRow(sid: Id)
      reads this
      ensures HasLiveRow(sid) == ChainAlive(View(), sid)
    {
      exists j :: j in refresh && refresh[j].sid == Some(sid) && refresh[j].revokedAt.None? && refresh[j].expiresAt > now
    }

    /** The session adapter's create: park, stash the code, sweep. */
    method Create(user: Id, issuer: string, subject: string, oidcSid: Option<string>) returns (reply: Reply)
      modifies this
      ensures Outcome(View(), reply) == CallbackStep(old(View()), user, issuer, subject, oidcSid)
    {
      if user !in users {
        return Refused;
      }
      var code := ParkRow(user, issuer, subject, oidcSid);
      Sweep();
      return Parked(code);
    }

    method ParkRow(user: Id, issuer: string, subject: string, oidcSid: Option<string>) returns (code: Code)
      modifies this`next, this`identities, this`owners
      ensures View() == Park(old(View()), user, issuer, subject, oidcSid)
      ensures code == Code(old(next), old(next) + 1)
    {
      var sid := next;
      code := Code(sid, sid + 1);
      next := sid + 2;
      identities := identities[sid := IdentityRow(user, issuer, subject, oidcSid, code, now + HANDOFF_TTL_MS, None, now)];
      owners := owners[sid := user];
    }

    /** Rows past the grace hour with no live chain are deleted. */
    method Sweep()
      modifies this`identities
      ensures View() == DropIdentities(old(View()), Swept(old(View())))
    {
      identities := map x | x in identities && !(identities[x].createdAt + SWEEP_GRACE_MS < now && !HasLiveRow(x)) :: identities[x];
      assert identities == old(identities) - Swept(old(View()));
    }

    method Destroy(access: AccessToken)
      modifies this`identities, this`refresh, this`revocations
      ensures Outcome(View(), Done) == FrontLogoutStep(old(View()), access)
    {
      if access in accessTokens && now / 1000 < access.exp && access.sid.Some? {
        EndSsoSession(access.sid.value);
      }
    }

    /** Back-channel logout: drop the matching rows, then end each dropped session and, for a named person, all of theirs. */
    method DestroyByIdentity(c: LogoutClaims) returns (count: nat)
      modifies this`identities, this`refresh, this`revocations
      ensures View() == BackChannel(old(View()), c)
      ensures count == |MatchedSids(old(View()), c)|
    {
      var deleted := set sid | sid in identities && Matches(identities[sid], c);
      assert deleted == MatchedSids(View(), c);
      var userIds: set<Id> := {};
      if c.userId.Some? || c.subject.Some? {
        userIds := (set sid | sid in deleted :: identities[sid].userId) + (if c.userId.Some? then {c.userId.value} else {});
      }
      assert userIds == NamedUsers(View(), c);
      identities := identities - deleted;
      ghost var s := View();
      EndNothing(s);
      EndDeleted(deleted, s);
      EndUsers(deleted, userIds, s);
      return |deleted|;
    }

    method EndDeleted(deleted: set<Id>, ghost s: State)
      requires View() == EndAll(s, {}, {})
      modifies this`refresh, this`revocations
      ensures View() == EndAll(s, deleted, {})
    {
      var left, done := deleted, {};
      while left != {}
        invariant left + done == deleted && left !! done
        invariant View() == EndAll(s, done, {})
        decreases left
      {
        var sid :| sid in left;
        EndOneSid(s, done, sid);
        RevokeRefreshBySid(sid);
        RevokeKey(SidKey(sid));
        left, done := left - {sid}, done + {sid};
      }
      assert done == deleted;
    }

    method EndUsers(deleted: set<Id>, userIds: set<Id>, ghost s: State)
      requires View() == EndAll(s, deleted, {})
      modifies this`refresh, this`revocations
      ensures View() == EndAll(s, deleted, userIds)
    {
      var left, done := userIds, {};
      while left != {}
        invariant left + done == userIds && left !! done
        invariant View() == EndAll(s, deleted, done)
        decreases left
      {
        var user :| user in left;
        EndOneUser(s, deleted, done, user);
        RevokeRefreshByUser(user, {});
        RevokeKey(UserKey(user));
        left, done := left - {user}, done + {user};
      }
      assert done == userIds;
    }

    // ----- routes/auth.ts -----

    method SsoExchange(code: Code) returns (reply: Reply)
      modifies this
      ensures Outcome(View(), reply) == ExchangeStep(cfg, old(View()), code)
    {
      if !(code.sid in identities && identities[code.sid].handoff == code
           && identities[code.sid].handoffClaimedAt.None? && identities[code.sid].handoffExpiresAt > now) {
        return Refused;
      }
      identities := identities[code.sid := identities[code.sid].(handoffClaimedAt := Some(now))];
      var user := identities[code.sid].userId;
      if user !in users || !users[user] {
        return Refused;
      }
      var access, refreshToken := IssueTokens(user, Some(code.sid));
      return Minted(access, refreshToken);
    }

    method Revoked(sub: Id, sid: Option<Id>, iat: nat) returns (revoked: bool)
      ensures revoked == IsTokenRevoked(View(), sub, sid, iat)
    {
      var key := UserKey(sub);
      if key in revocations && iat * 1000 <= revocations[key].revokedAt && now < revocations[key].revokedUntil {
        return true;
      }
      if sid.None? {
        return false;
      }
      key := SidKey(sid.value);
      return key in revocations && iat * 1000 <= revocations[key].revokedAt && now < revocations[key].revokedUntil;
    }

    /** requireAuth: does the request get through? */
    method RequireAuth(access: AccessToken) returns (ok: bool)
      ensures ok == Accepts(View(), access)
    {
      if !(access in accessTokens && now / 1000 < access.exp) {
        return false;
      }
      var revoked := Revoked(access.sub, access.sid, access.iat);
      return !revoked;
    }

    method PostRefresh(t: RefreshToken) returns (reply: Reply)
      modifies this`next, this`refresh, this`accessTokens, this`refreshTokens
      ensures Outcome(View(), reply) == RefreshStep(cfg, old(View()), t)
    {
      if !(t in refreshTokens && now / 1000 < t.exp) {
        return Refused;
      }
      if t.jti !in refresh || refresh[t.jti].revokedAt.Some? || refresh[t.jti].expiresAt < now {
        return Refused;
      }
      var row := refresh[t.jti];
      var revoked := Revoked(t.sub, row.sid, t.iat);
      if revoked {
        return Refused;
      }
      if t.sub !in users || !users[t.sub] {
        return Refused;
      }
      refresh := refresh[t.jti := row.(revokedAt := Some(now), rotatedAt := Some(now))];
      var access, refreshToken := IssueTokens(t.sub, row.sid);
      return Minted(access, refreshToken);
    }

    method PostLogout(access: AccessToken, presented: Option<RefreshToken>) returns (reply: Reply)
      modifies this`identities, this`refresh, this`revocations
      ensures Outcome(View(), reply) == LogoutStep(old(View()), access, presented)
    {
      var ok := RequireAuth(access);
      if !ok {
        return Refused;
      }
      ghost var s := View();
      if presented.Some? && presented.value in refreshTokens && now / 1000 < presented.value.exp {
        var jti := presented.value.jti;
        if jti in refresh {
          refresh := refresh[jti := refresh[jti].(revokedAt := Some(now))];
        }
      }
      assert refresh == Revoke(s, PresentedRow(s, presented)).refresh;
      if access.sid.Some? {
        EndSsoSession(access.sid.value);
      }
      return Done;
    }

    /** The current password is taken to be right; a wrong one changes nothing. */
    method PostChangePassword(access: AccessToken, own: Option<RefreshToken>) returns (reply: Reply)
      modifies this`refresh
      ensures Outcome(View(), reply) == ChangePasswordStep(old(View()), access, own)
    {
      var ok := RequireAuth(access);
      if !ok || access.sub !in users || !users[access.sub] {
        return Refused;
      }
      var kept: set<Id> := {};
      if own.Some? && own.value in refreshTokens && now / 1000 < own.value.exp && own.value.sub == access.sub {
        kept := {own.value.jti};
      }
      RevokeRefreshByUser(access.sub, kept);
      return Done;
    }
  }
}
