/** What every step of the session system keeps. */
module SessionInvariants {
  import opened Wrappers
  import opened Sessions

  // ----- ids and clocks -----

  ghost predicate IdentitiesSound(s: State) {
    forall x :: x in s.identities ==>
      var row := s.identities[x];
      && x < s.next && row.handoff.sid == x && row.createdAt <= s.now
      && row.handoffExpiresAt == row.createdAt + HANDOFF_TTL_MS
      && x in s.owners && s.owners[x] == row.userId
  }

  ghost predicate RowsSound(s: State) {
    forall j :: j in s.refresh ==>
      var row := s.refresh[j];
      j < s.next && (row.sid.Some? ==> row.sid.value < s.next && row.sid.value in s.owners && s.owners[row.sid.value] == row.userId)
  }

  ghost predicate AccessSound(cfg: Config, s: State) {
    forall t :: t in s.accessTokens ==>
      && t.iat * 1000 <= s.now && t.exp == t.iat + cfg.accessTtl
      && (t.sid.Some? ==> t.sid.value < s.next && t.sid.value in s.owners && s.owners[t.sid.value] == t.sub)
  }

  ghost predicate RefreshSound(cfg: Config, s: State) {
    forall t :: t in s.refreshTokens ==>
      && t.jti in s.refresh && s.refresh[t.jti].userId == t.sub
      && t.iat * 1000 + REFRESH_ROW_TTL_MS <= s.refresh[t.jti].expiresAt && t.exp == t.iat + cfg.refreshTtl
  }

  ghost predicate RevocationsSound(s: State) {
    forall k :: k in s.revocations ==>
      s.revocations[k].revokedAt <= s.now && s.revocations[k].revokedUntil == s.revocations[k].revokedAt + SID_REVOKE_TTL_MS
  }

  // ----- chains -----

  /** At most one unrevoked refresh row carries a sid. */
  ghost predicate OneLiveRow(s: State) {
    forall i, j :: i in s.refresh && j in s.refresh && LiveWithSameSid(s.refresh[i], s.refresh[j]) ==> i == j
  }

  predicate LiveWithSameSid(a: RefreshRow, b: RefreshRow) {
    a.sid.Some? && a.sid == b.sid && a.revokedAt.None? && b.revokedAt.None?
  }

  /** A session whose code was not exchanged yet has no refresh row. */
  ghost predicate UnclaimedHasNoRow(s: State) {
    forall j :: j in s.refresh && s.refresh[j].sid.Some? && s.refresh[j].sid.value in s.identities ==>
      s.identities[s.refresh[j].sid.value].handoffClaimedAt.Some?
  }

  ghost predicate Inv(cfg: Config, s: State) {
    && IdentitiesSound(s) && RowsSound(s) && AccessSound(cfg, s) && RefreshSound(cfg, s) && RevocationsSound(s)
    && OneLiveRow(s) && UnclaimedHasNoRow(s)
  }

  /** Every live chain still has its identity row, so a logout that names the IdP session can find it. */
  ghost predicate LiveChainsFindable(s: State) {
    forall j :: j in s.refresh && s.refresh[j].sid.Some? && s.refresh[j].revokedAt.None? && s.refresh[j].expiresAt > s.now ==>
      s.refresh[j].sid.value in s.identities
  }

  // ----- effects keep the invariant -----

  lemma {:induction false} RevokeKeeps(cfg: Config, s: State, rows: set<Id>)
    requires Inv(cfg, s)
    ensures Inv(cfg, Revoke(s, rows))
    ensures LiveChainsFindable(s) ==> LiveChainsFindable(Revoke(s, rows))
  {}

  lemma {:induction false} RotateKeeps(cfg: Config, s: State, j: Id)
    requires Inv(cfg, s) && j in s.refresh
    ensures Inv(cfg, Rotate(s, j))
    ensures LiveChainsFindable(s) ==> LiveChainsFindable(Rotate(s, j))
  {}

  lemma {:induction false} DropKeeps(cfg: Config, s: State, sids: set<Id>)
    requires Inv(cfg, s)
    ensures Inv(cfg, DropIdentities(s, sids))
    ensures LiveChainsFindable(s) && (forall x :: x in sids ==> !ChainAlive(s, x)) ==> LiveChainsFindable(DropIdentities(s, sids))
  {}

  lemma {:induction false} BlacklistKeeps(cfg: Config, s: State, keys: set<Key>)
    requires Inv(cfg, s)
    ensures Inv(cfg, Blacklist(s, keys))
    ensures LiveChainsFindable(s) ==> LiveChainsFindable(Blacklist(s, keys))
  {}

  /** Who may be issued a pair: a password login, or the owner of an exchanged session with no live row. */
  ghost predicate MayIssue(s: State, user: Id, sid: Option<Id>) {
    sid.Some? ==>
      && sid.value < s.next && sid.value in s.owners && s.owners[sid.value] == user
      && LiveRowsOfSid(s, sid.value) == {}
      && (sid.value in s.identities ==> s.identities[sid.value].handoffClaimedAt.Some?)
  }

  lemma {:induction false} IssueKeepsTokens(cfg: Config, s: State, user: Id, sid: Option<Id>)
    requires Inv(cfg, s) && MayIssue(s, user, sid)
    ensures AccessSound(cfg, Issue(cfg, s, user, sid)) && RefreshSound(cfg, Issue(cfg, s, user, sid))
  {}

  lemma {:induction false} IssueKeepsChains(cfg: Config, s: State, user: Id, sid: Option<Id>)
    requires Inv(cfg, s) && MayIssue(s, user, sid)
    ensures OneLiveRow(Issue(cfg, s, user, sid))
  {
    var s' := Issue(cfg, s, user, sid);
    assert forall i :: i in s.refresh ==> i != s.next && s'.refresh[i] == s.refresh[i];
    if sid.Some? {
      forall i | i in s.refresh && s.refresh[i].sid == sid
        ensures s.refresh[i].revokedAt.Some?
      {
        assert i in LiveRowsOfSid(s, sid.value) <==> s.refresh[i].revokedAt.None?;
      }
    }
  }

  lemma {:induction false} IssueKeepsRows(cfg: Config, s: State, user: Id, sid: Option<Id>)
    requires Inv(cfg, s) && MayIssue(s, user, sid)
    ensures
      var s' := Issue(cfg, s, user, sid);
      IdentitiesSound(s') && RowsSound(s') && RevocationsSound(s') && UnclaimedHasNoRow(s')
  {
    var s' := Issue(cfg, s, user, sid);
    assert forall i :: i in s.refresh ==> s'.refresh[i] == s.refresh[i];
  }

  lemma {:induction false} IssueKeeps(cfg: Config, s: State, user: Id, sid: Option<Id>)
    requires Inv(cfg, s) && MayIssue(s, user, sid)
    ensures Inv(cfg, Issue(cfg, s, user, sid))
    ensures LiveChainsFindable(s) && (sid.Some? ==> sid.value in s.identities) ==> LiveChainsFindable(Issue(cfg, s, user, sid))
  {
    IssueKeepsTokens(cfg, s, user, sid);
    IssueKeepsRows(cfg, s, user, sid);
    IssueKeepsChains(cfg, s, user, sid);
  }

  lemma {:induction false} ParkKeeps(cfg: Config, s: State, user: Id, issuer: string, subject: string, oidcSid: Option<string>)
    requires Inv(cfg, s)
    ensures Inv(cfg, Park(s, user, issuer, subject, oidcSid))
    ensures LiveChainsFindable(s) ==> LiveChainsFindable(Park(s, user, issuer, subject, oidcSid))
  {
    var s' := Park(s, user, issuer, subject, oidcSid);
    assert forall j :: j in s.refresh && s.refresh[j].sid.Some? ==> s.refresh[j].sid.value != s.next;
    assert forall t :: t in s.accessTokens && t.sid.Some? ==> t.sid.value != s.next;
  }

  lemma {:induction false} ClaimKeeps(cfg: Config, s: State, sid: Id)
    requires Inv(cfg, s) && sid in s.identities
    ensures Inv(cfg, Claim(s, sid))
    ensures LiveChainsFindable(s) ==> LiveChainsFindable(Claim(s, sid))
  {}

  lemma {:induction false} TickKeeps(cfg: Config, s: State, ms: nat)
    requires Inv(cfg, s)
    ensures Inv(cfg, s.(now := s.now + ms))
    ensures LiveChainsFindable(s) ==> LiveChainsFindable(s.(now := s.now + ms))
  {}

  // ----- steps keep the invariant -----

  /** The row of a refresh token that verifies outlives the token when the row's lifetime covers the token's. */
  lemma {:induction false} TokenDiesFirst(cfg: Config, s: State, t: RefreshToken)
    requires Inv(cfg, s) && Refreshable(s, t) && cfg.refreshTtl * 1000 <= REFRESH_ROW_TTL_MS
    ensures s.refresh[t.jti].expiresAt > s.now
  {}

  lemma {:induction false} RefreshMayIssue(cfg: Config, s: State, t: RefreshToken)
    requires Inv(cfg, s) && Refreshable(s, t)
    ensures MayIssue(Rotate(s, t.jti), t.sub, s.refresh[t.jti].sid)
  {
    var sid := s.refresh[t.jti].sid;
    if sid.Some? {
      forall j
        ensures j !in LiveRowsOfSid(Rotate(s, t.jti), sid.value)
      {}
    }
  }

  lemma {:induction false} EndSsoKeeps(cfg: Config, s: State, sid: Id)
    requires Inv(cfg, s)
    ensures Inv(cfg, EndSso(s, sid))
    ensures LiveChainsFindable(s) ==> LiveChainsFindable(EndSso(s, sid))
  {
    var revoked := Revoke(s, LiveRowsOfSid(s, sid));
    RevokeKeeps(cfg, s, LiveRowsOfSid(s, sid));
    DropKeeps(cfg, revoked, {sid});
    BlacklistKeeps(cfg, DropIdentities(revoked, {sid}), {SidKey(sid)});
  }

  lemma {:induction false} BackChannelKeeps(cfg: Config, s: State, c: LogoutClaims)
    requires Inv(cfg, s)
    ensures Inv(cfg, BackChannel(s, c))
    ensures LiveChainsFindable(s) ==> LiveChainsFindable(BackChannel(s, c))
  {
    var sids, users := MatchedSids(s, c), NamedUsers(s, c);
    var rows := BackChannelRows(s, sids, users);
    RevokeKeeps(cfg, s, rows);
    DropKeeps(cfg, Revoke(s, rows), sids);
    BlacklistKeeps(cfg, DropIdentities(Revoke(s, rows), sids), BackChannelKeys(sids, users));
  }

  lemma {:induction false} CallbackKeeps(cfg: Config, s: State, user: Id, issuer: string, subject: string, oidcSid: Option<string>)
    requires Inv(cfg, s)
    ensures Inv(cfg, CallbackStep(s, user, issuer, subject, oidcSid).state)
    ensures LiveChainsFindable(s) ==> LiveChainsFindable(CallbackStep(s, user, issuer, subject, oidcSid).state)
  {
    ParkKeeps(cfg, s, user, issuer, subject, oidcSid);
    var parked := Park(s, user, issuer, subject, oidcSid);
    DropKeeps(cfg, parked, Swept(parked));
  }

  lemma {:induction false} ExchangeKeeps(cfg: Config, s: State, code: Code)
    requires Inv(cfg, s)
    ensures Inv(cfg, ExchangeStep(cfg, s, code).state)
    ensures LiveChainsFindable(s) ==> LiveChainsFindable(ExchangeStep(cfg, s, code).state)
  {
    if Claimable(s, code) {
      var claimed := Claim(s, code.sid);
      ClaimKeeps(cfg, s, code.sid);
      forall j
        ensures j !in LiveRowsOfSid(claimed, code.sid)
      {}
      IssueKeeps(cfg, claimed, s.identities[code.sid].userId, Some(code.sid));
    }
  }

  lemma {:induction false} RefreshKeeps(cfg: Config, s: State, t: RefreshToken)
    requires Inv(cfg, s)
    ensures Inv(cfg, RefreshStep(cfg, s, t).state)
    ensures LiveChainsFindable(s) && cfg.refreshTtl * 1000 <= REFRESH_ROW_TTL_MS ==> LiveChainsFindable(RefreshStep(cfg, s, t).state)
  {
    if Refreshable(s, t) {
      RotateKeeps(cfg, s, t.jti);
      RefreshMayIssue(cfg, s, t);
      IssueKeeps(cfg, Rotate(s, t.jti), t.sub, s.refresh[t.jti].sid);
      if cfg.refreshTtl * 1000 <= REFRESH_ROW_TTL_MS {
        TokenDiesFirst(cfg, s, t);
      }
    }
  }

  lemma {:induction false} LogoutKeeps(cfg: Config, s: State, a: AccessToken, t: Option<RefreshToken>)
    requires Inv(cfg, s)
    ensures Inv(cfg, LogoutStep(s, a, t).state)
    ensures LiveChainsFindable(s) ==> LiveChainsFindable(LogoutStep(s, a, t).state)
  {
    RevokeKeeps(cfg, s, PresentedRow(s, t));
    if a.sid.Some? {
      EndSsoKeeps(cfg, Revoke(s, PresentedRow(s, t)), a.sid.value);
    }
  }

  lemma {:induction false} FrontLogoutKeeps(cfg: Config, s: State, a: AccessToken)
    requires Inv(cfg, s)
    ensures Inv(cfg, FrontLogoutStep(s, a).state)
    ensures LiveChainsFindable(s) ==> LiveChainsFindable(FrontLogoutStep(s, a).state)
  {
    if a.sid.Some? {
      EndSsoKeeps(cfg, s, a.sid.value);
    }
  }

  lemma {:induction false} ChangePasswordKeeps(cfg: Config, s: State, a: AccessToken, keep: Option<RefreshToken>)
    requires Inv(cfg, s)
    ensures Inv(cfg, ChangePasswordStep(s, a, keep).state)
    ensures LiveChainsFindable(s) ==> LiveChainsFindable(ChangePasswordStep(s, a, keep).state)
  {
    var kept := if keep.Some? && keep.value.sub == a.sub then PresentedRow(s, keep) else {};
    RevokeKeeps(cfg, s, LiveRowsOfUser(s, a.sub) - kept);
  }

  lemma {:induction false} LoginKeeps(cfg: Config, s: State, user: Id)
    requires Inv(cfg, s)
    ensures Inv(cfg, Mint(cfg, s, user, None).state)
    ensures LiveChainsFindable(s) ==> LiveChainsFindable(Mint(cfg, s, user, None).state)
  {
    IssueKeeps(cfg, s, user, None);
  }

  lemma {:induction false} SetUserKeeps(cfg: Config, s: State, user: Id, active: bool)
    requires Inv(cfg, s)
    ensures Inv(cfg, s.(users := s.users[user := active]))
    ensures LiveChainsFindable(s) ==> LiveChainsFindable(s.(users := s.users[user := active]))
  {}

  predicate Mints(action: Action) {
    action.Login? || action.Callback? || action.Exchange? || action.Refresh?
  }

  lemma {:induction false} MintingStepKeeps(cfg: Config, s: State, action: Action)
    requires Inv(cfg, s) && Mints(action)
    ensures Inv(cfg, Step(cfg, s, action).state)
    ensures LiveChainsFindable(s) && cfg.refreshTtl * 1000 <= REFRESH_ROW_TTL_MS ==> LiveChainsFindable(Step(cfg, s, action).state)
  {
    match action
    case Login(u) => LoginKeeps(cfg, s, u);
    case Callback(u, issuer, subject, oidcSid) => CallbackKeeps(cfg, s, u, issuer, subject, oidcSid);
    case Exchange(code) => ExchangeKeeps(cfg, s, code);
    case Refresh(t) => RefreshKeeps(cfg, s, t);
  }

  lemma {:induction false} EndingStepKeeps(cfg: Config, s: State, action: Action)
    requires Inv(cfg, s) && !Mints(action)
    ensures Inv(cfg, Step(cfg, s, action).state)
    ensures LiveChainsFindable(s) ==> LiveChainsFindable(Step(cfg, s, action).state)
  {
    match action
    case SetUser(u, active) => SetUserKeeps(cfg, s, u, active);
    case Logout(a, t) => LogoutKeeps(cfg, s, a, t);
    case FrontLogout(a) => FrontLogoutKeeps(cfg, s, a);
    case BackChannelLogout(c) => BackChannelKeeps(cfg, s, c);
    case ChangePassword(a, keep) => ChangePasswordKeeps(cfg, s, a, keep);
    case ResetPassword(u) => RevokeKeeps(cfg, s, LiveRowsOfUser(s, u));
    case Tick(ms) => TickKeeps(cfg, s, ms);
  }

  lemma {:induction false} StepKeeps(cfg: Config, s: State, action: Action)
    requires Inv(cfg, s)
    ensures Inv(cfg, Step(cfg, s, action).state)
    ensures LiveChainsFindable(s) && cfg.refreshTtl * 1000 <= REFRESH_ROW_TTL_MS ==> LiveChainsFindable(Step(cfg, s, action).state)
  {
    if Mints(action) {
      MintingStepKeeps(cfg, s, action);
    } else {
      EndingStepKeeps(cfg, s, action);
    }
  }

  lemma {:induction false} RunKeeps(cfg: Config, s: State, actions: seq<Action>)
    requires Inv(cfg, s)
    ensures Inv(cfg, Run(cfg, s, actions))
    ensures LiveChainsFindable(s) && cfg.refreshTtl * 1000 <= REFRESH_ROW_TTL_MS ==> LiveChainsFindable(Run(cfg, s, actions))
    decreases |actions|
  {
    if actions != [] {
      StepKeeps(cfg, s, actions[0]);
      RunKeeps(cfg, Step(cfg, s, actions[0]).state, actions[1..]);
    }
  }

  ghost predicate Reachable(cfg: Config, s: State) {
    exists actions :: Run(cfg, INIT, actions) == s
  }

  lemma {:induction false} ReachableInv(cfg: Config, s: State)
    requires Reachable(cfg, s)
    ensures Inv(cfg, s)
    ensures cfg.refreshTtl * 1000 <= REFRESH_ROW_TTL_MS ==> LiveChainsFindable(s)
  {
    var actions :| Run(cfg, INIT, actions) == s;
    RunKeeps(cfg, INIT, actions);
  }
}
