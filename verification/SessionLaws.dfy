/** The session system from the outside: what a logout, a password change, a code or a token does, told by its arguments. */
module SessionLaws {
  import opened Wrappers
  import opened Sessions
  import opened SessionInvariants
  import opened SessionSafety

  // ----- the identity a sign-on parked -----

  /** If the row of `x` is still there, it is the one parked for these arguments at this time. */
  ghost predicate ParkedAs(s: State, x: Id, user: Id, issuer: string, subject: string, oidcSid: Option<string>, code: Code, at: nat) {
    && x < s.next && at <= s.now
    && (x in s.identities ==>
          var row := s.identities[x];
          && row.userId == user && row.issuer == issuer && row.subject == subject && row.oidcSid == oidcSid
          && row.handoff == code && row.handoffExpiresAt == at + 60000 && row.createdAt == at)
  }

  lemma {:induction false} CallbackParks(cfg: Config, s: State, user: Id, issuer: string, subject: string, oidcSid: Option<string>)
    requires Step(cfg, s, Callback(user, issuer, subject, oidcSid)).reply.Parked?
    ensures
      var r := Step(cfg, s, Callback(user, issuer, subject, oidcSid));
      ParkedAs(r.state, r.reply.code.sid, user, issuer, subject, oidcSid, r.reply.code, s.now) && r.state.now == s.now
    ensures user in s.users
  {}

  lemma {:induction false} MintingKeepsParked(
    cfg: Config, s: State, action: Action, x: Id, user: Id, issuer: string, subject: string, oidcSid: Option<string>, code: Code, at: nat)
    requires ParkedAs(s, x, user, issuer, subject, oidcSid, code, at) && Mints(action)
    ensures ParkedAs(Step(cfg, s, action).state, x, user, issuer, subject, oidcSid, code, at)
  {}

  lemma {:induction false} EndingKeepsParked(
    cfg: Config, s: State, action: Action, x: Id, user: Id, issuer: string, subject: string, oidcSid: Option<string>, code: Code, at: nat)
    requires ParkedAs(s, x, user, issuer, subject, oidcSid, code, at) && !Mints(action)
    ensures ParkedAs(Step(cfg, s, action).state, x, user, issuer, subject, oidcSid, code, at)
  {}

  lemma {:induction false} StepKeepsParked(
    cfg: Config, s: State, action: Action, x: Id, user: Id, issuer: string, subject: string, oidcSid: Option<string>, code: Code, at: nat)
    requires ParkedAs(s, x, user, issuer, subject, oidcSid, code, at)
    ensures ParkedAs(Step(cfg, s, action).state, x, user, issuer, subject, oidcSid, code, at)
  {
    if Mints(action) {
      MintingKeepsParked(cfg, s, action, x, user, issuer, subject, oidcSid, code, at);
    } else {
      EndingKeepsParked(cfg, s, action, x, user, issuer, subject, oidcSid, code, at);
    }
  }

  lemma {:induction false} RunKeepsParked(
    cfg: Config, s: State, actions: seq<Action>, x: Id, user: Id, issuer: string, subject: string, oidcSid: Option<string>, code: Code, at: nat)
    requires ParkedAs(s, x, user, issuer, subject, oidcSid, code, at)
    ensures ParkedAs(Run(cfg, s, actions), x, user, issuer, subject, oidcSid, code, at)
    decreases |actions|
  {
    if actions != [] {
      StepKeepsParked(cfg, s, actions[0], x, user, issuer, subject, oidcSid, code, at);
      RunKeepsParked(cfg, Step(cfg, s, actions[0]).state, actions[1..], x, user, issuer, subject, oidcSid, code, at);
    }
  }

  /** The state reached by these runs around a sign-on. */
  function After(cfg: Config, before: seq<Action>, signOn: Action, between: seq<Action>): State {
    Run(cfg, Step(cfg, Run(cfg, INIT, before), signOn).state, between)
  }

  lemma {:induction false} AfterIsRun(cfg: Config, before: seq<Action>, signOn: Action, between: seq<Action>)
    ensures After(cfg, before, signOn, between) == Run(cfg, INIT, before + [signOn] + between)
    ensures Reachable(cfg, After(cfg, before, signOn, between))
  {
    RunAppend(cfg, INIT, before + [signOn], between);
    RunAppend(cfg, INIT, before, [signOn]);
    RunOne(cfg, Run(cfg, INIT, before), signOn);
  }

  lemma {:induction false} StillParked(
    cfg: Config, before: seq<Action>, user: Id, issuer: string, subject: string, oidcSid: Option<string>, between: seq<Action>, code: Code)
    requires Step(cfg, Run(cfg, INIT, before), Callback(user, issuer, subject, oidcSid)).reply == Parked(code)
    ensures ParkedAs(
      After(cfg, before, Callback(user, issuer, subject, oidcSid), between), code.sid, user, issuer, subject, oidcSid, code, Run(cfg, INIT, before).now)
  {
    var s := Run(cfg, INIT, before);
    CallbackParks(cfg, s, user, issuer, subject, oidcSid);
    RunKeepsParked(
      cfg, Step(cfg, s, Callback(user, issuer, subject, oidcSid)).state, between, code.sid, user, issuer, subject, oidcSid, code, s.now);
  }

  // ----- back-channel logout, by the arguments of the sign-on -----

  /** The logout names this sign-on: its issuer and subject together, its session at the provider, or its user. */
  predicate NamesSignOn(c: LogoutClaims, user: Id, issuer: string, subject: string, oidcSid: Option<string>) {
    || (c.issuer == issuer && c.subject == Some(subject))
    || (oidcSid.Some? && c.oidcSid == oidcSid)
    || c.userId == Some(user)
  }

  /** A logout that names a sign-on whose row is still there shuts its session out, over every later run. */
  lemma {:induction false} NamedSessionEnds(
    cfg: Config, before: seq<Action>, user: Id, issuer: string, subject: string, oidcSid: Option<string>, between: seq<Action>, code: Code,
    c: LogoutClaims, after: seq<Action>)
    requires cfg.accessTtl <= 86400
    requires Step(cfg, Run(cfg, INIT, before), Callback(user, issuer, subject, oidcSid)).reply == Parked(code)
    requires code.sid in After(cfg, before, Callback(user, issuer, subject, oidcSid), between).identities
    requires
      || (c.issuer == issuer && c.subject == Some(subject))
      || (oidcSid.Some? && c.oidcSid == oidcSid)
      || c.userId == Some(user)
    ensures
      var s := After(cfg, before, Callback(user, issuer, subject, oidcSid), between);
      ShutOut(cfg, Run(cfg, Step(cfg, s, BackChannelLogout(c)).state, after), code.sid)
  {
    var signOn := Callback(user, issuer, subject, oidcSid);
    StillParked(cfg, before, user, issuer, subject, oidcSid, between, code);
    AfterIsRun(cfg, before, signOn, between);
    assert code.sid in MatchedSids(After(cfg, before, signOn, between), c);
    EndedStaysEnded(cfg, before + [signOn] + between, BackChannelLogout(c), after, code.sid);
  }

  /** If it names the person, by subject or by user, every token the person then had is dead for good and every chain revoked. */
  lemma {:induction false} NamedPersonSignedOut(
    cfg: Config, before: seq<Action>, user: Id, issuer: string, subject: string, oidcSid: Option<string>, between: seq<Action>, code: Code,
    c: LogoutClaims, after: seq<Action>, t: AccessToken)
    requires cfg.accessTtl <= 86400
    requires Step(cfg, Run(cfg, INIT, before), Callback(user, issuer, subject, oidcSid)).reply == Parked(code)
    requires code.sid in After(cfg, before, Callback(user, issuer, subject, oidcSid), between).identities
    requires (c.issuer == issuer && c.subject == Some(subject)) || c.userId == Some(user)
    requires t in After(cfg, before, Callback(user, issuer, subject, oidcSid), between).accessTokens && t.sub == user
    ensures
      var s := After(cfg, before, Callback(user, issuer, subject, oidcSid), between);
      var ended := Step(cfg, s, BackChannelLogout(c)).state;
      && !Accepts(Run(cfg, ended, after), t)
      && (forall j :: j in s.refresh && s.refresh[j].userId == user ==> ended.refresh[j].revokedAt.Some?)
  {
    var signOn := Callback(user, issuer, subject, oidcSid);
    var s := After(cfg, before, signOn, between);
    StillParked(cfg, before, user, issuer, subject, oidcSid, between, code);
    AfterIsRun(cfg, before, signOn, between);
    assert code.sid in MatchedSids(s, c);
    PersonStaysSignedOut(cfg, s, c, user, after, t);
  }

  /** A logout that differs in all three leaves the row alone: the same subject under another issuer is somebody else. */
  lemma {:induction false} OtherSessionStays(
    cfg: Config, before: seq<Action>, user: Id, issuer: string, subject: string, oidcSid: Option<string>, between: seq<Action>, code: Code, c: LogoutClaims)
    requires Step(cfg, Run(cfg, INIT, before), Callback(user, issuer, subject, oidcSid)).reply == Parked(code)
    requires code.sid in After(cfg, before, Callback(user, issuer, subject, oidcSid), between).identities
    requires c.issuer != issuer || c.subject != Some(subject)
    requires oidcSid.None? || c.oidcSid != oidcSid
    requires c.userId != Some(user)
    ensures
      var s := After(cfg, before, Callback(user, issuer, subject, oidcSid), between);
      var ended := Step(cfg, s, BackChannelLogout(c)).state;
      code.sid in ended.identities && ended.identities[code.sid] == s.identities[code.sid]
  {
    StillParked(cfg, before, user, issuer, subject, oidcSid, between, code);
  }

  /** If no session of the user is named, and neither is the user, their chains and their tokens stay as they were. */
  lemma {:induction false} OtherPersonStays(cfg: Config, s: State, user: Id, c: LogoutClaims)
    requires Reachable(cfg, s) && c.userId != Some(user)
    requires forall x :: x in s.identities && s.identities[x].userId == user ==>
      !NamesSignOn(c, user, s.identities[x].issuer, s.identities[x].subject, s.identities[x].oidcSid)
    ensures
      var ended := Step(cfg, s, BackChannelLogout(c)).state;
      && (forall j :: j in s.refresh && s.refresh[j].userId == user ==> j in ended.refresh && ended.refresh[j] == s.refresh[j])
      && (forall t: AccessToken :: t.sub == user ==> (Accepts(ended, t) <==> Accepts(s, t)))
  {
    ReachableInv(cfg, s);
    var sids, users := MatchedSids(s, c), NamedUsers(s, c);
    var ended := Step(cfg, s, BackChannelLogout(c)).state;
    assert forall x :: x in sids ==> s.identities[x].userId != user;
    assert user !in users;
    forall j | j in s.refresh && s.refresh[j].userId == user
      ensures ended.refresh[j] == s.refresh[j]
    {
      assert s.refresh[j].sid.Some? ==> s.refresh[j].sid.value !in sids;
    }
    forall t: AccessToken | t.sub == user
      ensures Accepts(ended, t) <==> Accepts(s, t)
    {
      OtherTokenStays(cfg, s, user, c, t);
    }
  }

  lemma {:induction false} OtherTokenStays(cfg: Config, s: State, user: Id, c: LogoutClaims, t: AccessToken)
    requires Inv(cfg, s) && t.sub == user && user !in NamedUsers(s, c)
    requires forall x :: x in MatchedSids(s, c) ==> s.identities[x].userId != user
    ensures Accepts(BackChannel(s, c), t) <==> Accepts(s, t)
  {
    var sids, users := MatchedSids(s, c), NamedUsers(s, c);
    NotItsSid(cfg, s, sids, t);
    OnlyTheseKeys(sids, users, t);
    LogoutTouches(s, c);
    SameRevocations(BackChannel(s, c), Blacklist(s, BackChannelKeys(sids, users)), t);
    KeysStay(s, BackChannelKeys(sids, users), t);
  }

  lemma {:induction false} NotItsSid(cfg: Config, s: State, sids: set<Id>, t: AccessToken)
    requires Inv(cfg, s) && forall x :: x in sids ==> x in s.identities && s.identities[x].userId != t.sub
    ensures t in s.accessTokens && t.sid.Some? ==> t.sid.value !in sids
  {}

  lemma {:induction false} OnlyTheseKeys(sids: set<Id>, users: set<Id>, t: AccessToken)
    ensures UserKey(t.sub) in BackChannelKeys(sids, users) <==> t.sub in users
    ensures t.sid.Some? ==> (SidKey(t.sid.value) in BackChannelKeys(sids, users) <==> t.sid.value in sids)
  {}

  lemma {:induction false} LogoutTouches(s: State, c: LogoutClaims)
    ensures
      var ended, listed := BackChannel(s, c), Blacklist(s, BackChannelKeys(MatchedSids(s, c), NamedUsers(s, c)));
      ended.now == listed.now && ended.accessTokens == listed.accessTokens && ended.revocations == listed.revocations
  {}

  lemma {:induction false} SameRevocations(a: State, b: State, t: AccessToken)
    requires a.now == b.now && a.accessTokens == b.accessTokens && a.revocations == b.revocations
    ensures Accepts(a, t) <==> Accepts(b, t)
  {}

  lemma {:induction false} KeysStay(s: State, keys: set<Key>, t: AccessToken)
    requires UserKey(t.sub) !in keys && (t in s.accessTokens && t.sid.Some? ==> SidKey(t.sid.value) !in keys)
    ensures Accepts(Blacklist(s, keys), t) <==> Accepts(s, t)
  {}

  // ----- codes -----

  /** A code whose row is untouched mints exactly within its 60 seconds, for an active user; what it mints carries the sign-on's sid and user. */
  lemma {:induction false} CodeLaw(
    cfg: Config, before: seq<Action>, user: Id, issuer: string, subject: string, oidcSid: Option<string>, between: seq<Action>, code: Code)
    requires Step(cfg, Run(cfg, INIT, before), Callback(user, issuer, subject, oidcSid)).reply == Parked(code)
    ensures
      var s := After(cfg, before, Callback(user, issuer, subject, oidcSid), between);
      var r := Step(cfg, s, Exchange(code));
      && (r.reply.Minted? ==> r.reply.access.sid == Some(code.sid) && r.reply.access.sub == user && r.reply.refresh.sub == user)
      && (code.sid in s.identities && s.identities[code.sid].handoffClaimedAt.None? ==>
            (r.reply.Minted? <==> s.now < Run(cfg, INIT, before).now + 60000 && user in s.users && s.users[user]))
      && (code.sid !in s.identities || s.identities[code.sid].handoffClaimedAt.Some? ==> r.reply.Refused?)
  {
    StillParked(cfg, before, user, issuer, subject, oidcSid, between, code);
  }

  // ----- the sweep -----

  /** A sign-on sweeps away exactly the older rows that are past an hour and have no unrevoked, unexpired refresh row. */
  lemma {:induction false} SweepLaw(cfg: Config, s: State, user: Id, issuer: string, subject: string, oidcSid: Option<string>, x: Id)
    requires user in s.users && x in s.identities && x < s.next
    ensures
      var r := Step(cfg, s, Callback(user, issuer, subject, oidcSid)).state;
      x in r.identities <==>
        s.now <= s.identities[x].createdAt + 3600000
        || exists j :: j in s.refresh && s.refresh[j].sid == Some(x) && s.refresh[j].revokedAt.None? && s.refresh[j].expiresAt > s.now
  {
    var parked := Park(s, user, issuer, subject, oidcSid);
    assert parked.refresh == s.refresh && parked.now == s.now && parked.identities[x] == s.identities[x];
    assert ChainAlive(parked, x) <==> ChainAlive(s, x);
  }

  // ----- tokens -----

  /** A token is accepted from its minting to its expiry, unless a revocation at or after its second still counts. */
  lemma {:induction false} AcceptLaw(s: State, t: AccessToken)
    ensures Accepts(s, t) <==>
      && t in s.accessTokens && s.now / 1000 < t.exp
      && !(UserKey(t.sub) in s.revocations
           && t.iat * 1000 <= s.revocations[UserKey(t.sub)].revokedAt && s.now < s.revocations[UserKey(t.sub)].revokedUntil)
      && (t.sid.Some? ==>
            !(SidKey(t.sid.value) in s.revocations
              && t.iat * 1000 <= s.revocations[SidKey(t.sid.value)].revokedAt && s.now < s.revocations[SidKey(t.sid.value)].revokedUntil))
  {}

  /** A refresh needs an unexpired token, its row unrevoked and not past its time, no revocation that counts, and an active user. */
  lemma {:induction false} RefreshLaw(cfg: Config, s: State, t: RefreshToken)
    ensures Step(cfg, s, Refresh(t)).reply.Minted? <==>
      && t in s.refreshTokens && s.now / 1000 < t.exp
      && t.jti in s.refresh && s.refresh[t.jti].revokedAt.None? && s.now <= s.refresh[t.jti].expiresAt
      && !IsTokenRevoked(s, t.sub, s.refresh[t.jti].sid, t.iat)
      && t.sub in s.users && s.users[t.sub]
  {}

  /** A fresh row lives 30 days; a fresh pair carries the configured lifetimes from the current second. */
  lemma {:induction false} MintLaw(cfg: Config, s: State, user: Id, sid: Option<Id>)
    ensures
      var r := Mint(cfg, s, user, sid);
      && r.state.refresh[r.reply.refresh.jti] == RefreshRow(user, s.now + 2592000000, None, None, sid)
      && r.reply.access == AccessToken(user, sid, s.now / 1000, s.now / 1000 + cfg.accessTtl)
      && r.reply.refresh == RefreshToken(user, s.next, s.now / 1000, s.now / 1000 + cfg.refreshTtl)
      && r.state.accessTokens == s.accessTokens + {r.reply.access} && r.state.refreshTokens == s.refreshTokens + {r.reply.refresh}
  {}

  // ----- passwords and plain logout -----

  /** A revoked row is never unrevoked. */
  lemma {:induction false} RevokedStays(cfg: Config, s: State, actions: seq<Action>, j: Id)
    requires j in s.refresh && s.refresh[j].revokedAt.Some? && j < s.next
    ensures j in Run(cfg, s, actions).refresh && Run(cfg, s, actions).refresh[j].revokedAt.Some?
    decreases |actions|
  {
    if actions != [] {
      StepKeepsRevoked(cfg, s, actions[0], j);
      RevokedStays(cfg, Step(cfg, s, actions[0]).state, actions[1..], j);
    }
  }

  ghost predicate RevokedRow(s: State, j: Id) {
    j in s.refresh && s.refresh[j].revokedAt.Some? && j < s.next
  }

  lemma {:induction false} MintingKeepsRevoked(cfg: Config, s: State, action: Action, j: Id)
    requires RevokedRow(s, j) && Mints(action)
    ensures RevokedRow(Step(cfg, s, action).state, j)
  {}

  lemma {:induction false} EndingKeepsRevoked(cfg: Config, s: State, action: Action, j: Id)
    requires RevokedRow(s, j) && !Mints(action)
    ensures RevokedRow(Step(cfg, s, action).state, j)
  {}

  lemma {:induction false} StepKeepsRevoked(cfg: Config, s: State, action: Action, j: Id)
    requires RevokedRow(s, j)
    ensures RevokedRow(Step(cfg, s, action).state, j)
  {
    if Mints(action) {
      MintingKeepsRevoked(cfg, s, action, j);
    } else {
      EndingKeepsRevoked(cfg, s, action, j);
    }
  }

  /** A password change ends, over every later run, every chain of the user but the one whose token was handed in. */
  lemma {:induction false} PasswordChangeLaw(cfg: Config, s: State, a: AccessToken, own: Option<RefreshToken>, t: RefreshToken, after: seq<Action>)
    requires Inv(cfg, s) && Step(cfg, s, ChangePassword(a, own)).reply.Done?
    requires t in s.refreshTokens && t.sub == a.sub && (own.Some? ==> own.value.jti != t.jti)
    ensures Step(cfg, Run(cfg, Step(cfg, s, ChangePassword(a, own)).state, after), Refresh(t)).reply.Refused?
  {
    var s' := Step(cfg, s, ChangePassword(a, own)).state;
    assert s.refresh[t.jti].userId == a.sub;
    assert s'.refresh[t.jti].revokedAt.Some?;
    RevokedStays(cfg, s', after, t.jti);
  }

  /** The chain handed in, other people's chains and every access token stay as they were. */
  lemma {:induction false} PasswordChangeSpares(cfg: Config, s: State, a: AccessToken, own: Option<RefreshToken>, t: RefreshToken)
    requires Inv(cfg, s) && t in s.refreshTokens
    requires t.sub != a.sub || (own == Some(t) && s.now / 1000 < t.exp)
    ensures
      var s' := Step(cfg, s, ChangePassword(a, own)).state;
      && s'.refresh[t.jti] == s.refresh[t.jti] && s'.accessTokens == s.accessTokens && s'.revocations == s.revocations
      && (Step(cfg, s', Refresh(t)).reply.Minted? <==> Step(cfg, s, Refresh(t)).reply.Minted?)
  {
    assert s.refresh[t.jti].userId == t.sub;
  }

  /** A password reset ends every chain of the user, over every later run, and no other. */
  lemma {:induction false} PasswordResetLaw(cfg: Config, s: State, user: Id, t: RefreshToken, after: seq<Action>)
    requires Inv(cfg, s) && t in s.refreshTokens
    ensures
      var s' := Step(cfg, s, ResetPassword(user)).state;
      && (t.sub == user ==> Step(cfg, Run(cfg, s', after), Refresh(t)).reply.Refused?)
      && (t.sub != user ==> s'.refresh[t.jti] == s.refresh[t.jti])
  {
    var s' := Step(cfg, s, ResetPassword(user)).state;
    assert s.refresh[t.jti].userId == t.sub;
    if t.sub == user {
      assert s'.refresh[t.jti].revokedAt.Some?;
      RevokedStays(cfg, s', after, t.jti);
    }
  }

  /** A logout refuses the refresh token handed in, over every later run, whether the session came from SSO or a password. */
  lemma {:induction false} LogoutLaw(cfg: Config, s: State, a: AccessToken, t: RefreshToken, after: seq<Action>)
    requires Inv(cfg, s) && t in s.refreshTokens
    ensures Step(cfg, s, Logout(a, Some(t))).reply.Done? <==> Accepts(s, a)
    ensures Accepts(s, a) ==> Step(cfg, Run(cfg, Step(cfg, s, Logout(a, Some(t))).state, after), Refresh(t)).reply.Refused?
  {
    var s' := Step(cfg, s, Logout(a, Some(t))).state;
    if Accepts(s, a) {
      if s.now / 1000 < t.exp {
        LogoutRevokes(cfg, s, a, t);
        RevokedStays(cfg, s', after, t.jti);
      } else {
        ClockForward(cfg, s', after);
      }
    }
  }

  lemma {:induction false} LogoutRevokes(cfg: Config, s: State, a: AccessToken, t: RefreshToken)
    requires Inv(cfg, s) && Accepts(s, a) && VerifiesRefresh(s, t)
    ensures RevokedRow(Step(cfg, s, Logout(a, Some(t))).state, t.jti)
  {
    assert t.jti in s.refresh && t.jti < s.next;
  }

  lemma {:induction false} ClockForward(cfg: Config, s: State, actions: seq<Action>)
    ensures s.now <= Run(cfg, s, actions).now
    decreases |actions|
  {
    if actions != [] {
      StepClock(cfg, s, actions[0]);
      ClockForward(cfg, Step(cfg, s, actions[0]).state, actions[1..]);
    }
  }

  lemma {:induction false} StepClock(cfg: Config, s: State, action: Action)
    ensures s.now <= Step(cfg, s, action).state.now
  {}

  /** An administrator's change of a user and the passing of time touch nothing else. */
  lemma {:induction false} QuietSteps(cfg: Config, s: State, user: Id, active: bool, ms: nat)
    ensures Step(cfg, s, SetUser(user, active)).state == s.(users := s.users[user := active])
    ensures Step(cfg, s, Tick(ms)).state == s.(now := s.now + ms)
  {}

  /** A password login works exactly for an active user. */
  lemma {:induction false} LoginLaw(cfg: Config, s: State, user: Id)
    ensures Step(cfg, s, Login(user)).reply.Minted? <==> user in s.users && s.users[user]
    ensures Step(cfg, s, Login(user)).reply.Minted? ==> Step(cfg, s, Login(user)).reply.access.sid.None?
  {}
}
