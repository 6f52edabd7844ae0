/** Safety over whole runs: an ended session stays ended, a code mints once, a live chain can be found. */
module SessionSafety {
  import opened Wrappers
  import opened Sessions
  import opened SessionInvariants

  // ----- a dead token stays dead -----

  /** The token was issued at or before a revocation that covers it. */
  ghost predicate Dead(s: State, t: AccessToken) {
    || (UserKey(t.sub) in s.revocations && t.iat * 1000 <= s.revocations[UserKey(t.sub)].revokedAt)
    || (t.sid.Some? && SidKey(t.sid.value) in s.revocations && t.iat * 1000 <= s.revocations[SidKey(t.sid.value)].revokedAt)
  }

  /** Revocations are never withdrawn and their moment only moves forward. */
  ghost predicate KeepsRevocations(s: State, s': State) {
    forall k :: k in s.revocations ==> k in s'.revocations && s.revocations[k].revokedAt <= s'.revocations[k].revokedAt
  }

  lemma {:induction false} StepKeepsRevocations(cfg: Config, s: State, action: Action)
    requires Inv(cfg, s)
    ensures KeepsRevocations(s, Step(cfg, s, action).state)
    ensures s.accessTokens <= Step(cfg, s, action).state.accessTokens
  {}

  /** With an access lifetime of at most the 24 hours of a revocation record, the token expires before the record lapses. */
  lemma {:induction false} DeadIsRejected(cfg: Config, s: State, t: AccessToken)
    requires Inv(cfg, s) && cfg.accessTtl * 1000 <= SID_REVOKE_TTL_MS && t in s.accessTokens && Dead(s, t)
    ensures !Accepts(s, t)
  {}

  lemma {:induction false} DeadStaysDead(cfg: Config, s: State, actions: seq<Action>, t: AccessToken)
    requires Inv(cfg, s) && t in s.accessTokens && Dead(s, t)
    ensures t in Run(cfg, s, actions).accessTokens && Dead(Run(cfg, s, actions), t)
    decreases |actions|
  {
    if actions != [] {
      StepKeeps(cfg, s, actions[0]);
      StepKeepsRevocations(cfg, s, actions[0]);
      DeadStaysDead(cfg, Step(cfg, s, actions[0]).state, actions[1..], t);
    }
  }

  // ----- an ended session stays ended -----

  /** The steps that end session `x`. */
  predicate Ends(s: State, action: Action, x: Id) {
    match action
    case Logout(a, _) => Accepts(s, a) && a.sid == Some(x)
    case FrontLogout(a) => VerifiesAccess(s, a) && a.sid == Some(x)
    case BackChannelLogout(c) => x in MatchedSids(s, c)
    case _ => false
  }

  /** Nothing is left that could mint for `x`. */
  ghost predicate Closed(s: State, x: Id) {
    && x < s.next
    && x !in s.identities
    && (forall j :: j in s.refresh && s.refresh[j].sid == Some(x) ==> s.refresh[j].revokedAt.Some?)
  }

  /** Nothing is left that could mint for `x`, and every token minted for it is dead. */
  ghost predicate Over(s: State, x: Id) {
    Closed(s, x) && forall t :: t in s.accessTokens && t.sid == Some(x) ==> Dead(s, t)
  }

  lemma {:induction false} EndSsoEnds(cfg: Config, s: State, x: Id)
    requires Inv(cfg, s) && x < s.next
    ensures Over(EndSso(s, x), x)
  {
    var s' := EndSso(s, x);
    forall j | j in s'.refresh && s'.refresh[j].sid == Some(x)
      ensures s'.refresh[j].revokedAt.Some?
    {
      assert s.refresh[j].revokedAt.None? ==> j in LiveRowsOfSid(s, x);
    }
    assert SidKey(x) in s'.revocations && s'.revocations[SidKey(x)].revokedAt == s.now;
  }

  lemma {:induction false} BackChannelEnds(cfg: Config, s: State, c: LogoutClaims, x: Id)
    requires Inv(cfg, s) && x in MatchedSids(s, c)
    ensures Over(BackChannel(s, c), x)
  {
    var sids, users := MatchedSids(s, c), NamedUsers(s, c);
    var s' := BackChannel(s, c);
    forall j | j in s'.refresh && s'.refresh[j].sid == Some(x)
      ensures s'.refresh[j].revokedAt.Some?
    {
      assert s.refresh[j].revokedAt.None? ==> j in BackChannelRows(s, sids, users);
    }
    assert SidKey(x) in BackChannelKeys(sids, users);
    assert SidKey(x) in s'.revocations && s'.revocations[SidKey(x)].revokedAt == s.now;
  }

  lemma {:induction false} EndingEnds(cfg: Config, s: State, action: Action, x: Id)
    requires Inv(cfg, s) && Ends(s, action, x)
    ensures Over(Step(cfg, s, action).state, x)
  {
    match action
    case Logout(a, t) =>
      RevokeKeeps(cfg, s, PresentedRow(s, t));
      EndSsoEnds(cfg, Revoke(s, PresentedRow(s, t)), x);
    case FrontLogout(a) => EndSsoEnds(cfg, s, x);
    case BackChannelLogout(c) => BackChannelEnds(cfg, s, c, x);
  }

  lemma {:induction false} EndSsoKeepsClosed(s: State, sid: Id, x: Id)
    requires Closed(s, x)
    ensures Closed(EndSso(s, sid), x)
  {}

  lemma {:induction false} BackChannelKeepsClosed(s: State, c: LogoutClaims, x: Id)
    requires Closed(s, x)
    ensures Closed(BackChannel(s, c), x)
  {}

  lemma {:induction false} RevokeKeepsClosed(s: State, rows: set<Id>, x: Id)
    requires Closed(s, x)
    ensures Closed(Revoke(s, rows), x)
  {}

  lemma {:induction false} ExchangeKeepsClosed(cfg: Config, s: State, code: Code, x: Id)
    requires Closed(s, x)
    ensures Closed(ExchangeStep(cfg, s, code).state, x)
  {}

  lemma {:induction false} RefreshKeepsClosed(cfg: Config, s: State, t: RefreshToken, x: Id)
    requires Closed(s, x)
    ensures Closed(RefreshStep(cfg, s, t).state, x)
  {}

  lemma {:induction false} CallbackKeepsClosed(s: State, user: Id, issuer: string, subject: string, oidcSid: Option<string>, x: Id)
    requires Closed(s, x)
    ensures Closed(CallbackStep(s, user, issuer, subject, oidcSid).state, x)
  {}

  lemma {:induction false} LogoutKeepsClosed(s: State, a: AccessToken, t: Option<RefreshToken>, x: Id)
    requires Closed(s, x)
    ensures Closed(LogoutStep(s, a, t).state, x)
    ensures Closed(FrontLogoutStep(s, a).state, x)
  {
    RevokeKeepsClosed(s, PresentedRow(s, t), x);
    if a.sid.Some? {
      EndSsoKeepsClosed(s, a.sid.value, x);
      EndSsoKeepsClosed(Revoke(s, PresentedRow(s, t)), a.sid.value, x);
    }
  }

  lemma {:induction false} StepKeepsClosed(cfg: Config, s: State, action: Action, x: Id)
    requires Closed(s, x)
    ensures Closed(Step(cfg, s, action).state, x)
  {
    match action
    case Callback(u, issuer, subject, oidcSid) => CallbackKeepsClosed(s, u, issuer, subject, oidcSid, x);
    case Exchange(code) => ExchangeKeepsClosed(cfg, s, code, x);
    case Refresh(t) => RefreshKeepsClosed(cfg, s, t, x);
    case Logout(a, t) => LogoutKeepsClosed(s, a, t, x);
    case FrontLogout(a) => LogoutKeepsClosed(s, a, None, x);
    case BackChannelLogout(c) => BackChannelKeepsClosed(s, c, x);
    case ChangePassword(a, keep) =>
      var kept := if keep.Some? && keep.value.sub == a.sub then PresentedRow(s, keep) else {};
      RevokeKeepsClosed(s, LiveRowsOfUser(s, a.sub) - kept, x);
    case ResetPassword(u) => RevokeKeepsClosed(s, LiveRowsOfUser(s, u), x);
    case _ =>
  }

  /** No step can mint for a closed session. */
  lemma {:induction false} NothingMintedForClosed(cfg: Config, s: State, action: Action, x: Id, t: AccessToken)
    requires Closed(s, x) && t.sid == Some(x) && t in Step(cfg, s, action).state.accessTokens
    ensures t in s.accessTokens
  {}

  lemma {:induction false} StepKeepsOver(cfg: Config, s: State, action: Action, x: Id)
    requires Inv(cfg, s) && Over(s, x)
    ensures Over(Step(cfg, s, action).state, x)
  {
    var s' := Step(cfg, s, action).state;
    StepKeepsClosed(cfg, s, action, x);
    StepKeepsRevocations(cfg, s, action);
    forall t | t in s'.accessTokens && t.sid == Some(x)
      ensures Dead(s', t)
    {
      NothingMintedForClosed(cfg, s, action, x, t);
      assert Dead(s, t);
    }
  }

  lemma {:induction false} RunKeepsOver(cfg: Config, s: State, actions: seq<Action>, x: Id)
    requires Inv(cfg, s) && Over(s, x)
    ensures Inv(cfg, Run(cfg, s, actions)) && Over(Run(cfg, s, actions), x)
    decreases |actions|
  {
    if actions != [] {
      StepKeeps(cfg, s, actions[0]);
      StepKeepsOver(cfg, s, actions[0], x);
      RunKeepsOver(cfg, Step(cfg, s, actions[0]).state, actions[1..], x);
    }
  }

  /** Nothing of session `x` works in this state: no access token and no refresh. */
  ghost predicate ShutOut(cfg: Config, s: State, x: Id) {
    && (forall t: AccessToken :: t.sid == Some(x) ==> !Accepts(s, t))
    && (forall t: RefreshToken :: t.jti in s.refresh && s.refresh[t.jti].sid == Some(x) ==> RefreshStep(cfg, s, t) == Outcome(s, Refused))
  }

  /** The safety promise: over every run, once a step ended a session, nothing of it works ever again. */
  ghost predicate EndedForever(cfg: Config) {
    forall before: seq<Action>, action: Action, after: seq<Action>, x: Id ::
      Ends(Run(cfg, INIT, before), action, x) ==>
        ShutOut(cfg, Run(cfg, Step(cfg, Run(cfg, INIT, before), action).state, after), x)
  }

  lemma {:induction false} EndedStaysEnded(cfg: Config, before: seq<Action>, action: Action, after: seq<Action>, x: Id)
    requires cfg.accessTtl * 1000 <= SID_REVOKE_TTL_MS
    requires Ends(Run(cfg, INIT, before), action, x)
    ensures ShutOut(cfg, Run(cfg, Step(cfg, Run(cfg, INIT, before), action).state, after), x)
  {
    var s := Run(cfg, INIT, before);
    RunKeeps(cfg, INIT, before);
    StepKeeps(cfg, s, action);
    EndingEnds(cfg, s, action, x);
    RunKeepsOver(cfg, Step(cfg, s, action).state, after, x);
    var last := Run(cfg, Step(cfg, s, action).state, after);
    forall t: AccessToken | t.sid == Some(x)
      ensures !Accepts(last, t)
    {
      if t in last.accessTokens {
        DeadIsRejected(cfg, last, t);
      }
    }
  }

  /**
   The promise holds over all runs exactly when access tokens live at most as long as a revocation record: a longer
   configured lifetime lets a logged-out token back in once the record has lapsed.
   */
  lemma {:induction false} EndedForeverExactly(cfg: Config)
    ensures EndedForever(cfg) <==> cfg.accessTtl <= 86400
  {
    if cfg.accessTtl * 1000 <= SID_REVOKE_TTL_MS {
      forall before: seq<Action>, action: Action, after: seq<Action>, x: Id | Ends(Run(cfg, INIT, before), action, x)
        ensures ShutOut(cfg, Run(cfg, Step(cfg, Run(cfg, INIT, before), action).state, after), x)
      {
        EndedStaysEnded(cfg, before, action, after, x);
      }
    } else {
      var t, before, action := LoggedInState(cfg);
      var s := Run(cfg, INIT, before);
      var after := [Tick(SID_REVOKE_TTL_MS)];
      var ended := Step(cfg, s, action).state;
      RunOne(cfg, ended, Tick(SID_REVOKE_TTL_MS));
      var last := Run(cfg, ended, after);
      assert Ends(s, action, 0);
      assert Accepts(last, t);
      assert !ShutOut(cfg, last, 0);
    }
  }

  lemma {:induction false} RunOne(cfg: Config, s: State, action: Action)
    ensures Run(cfg, s, [action]) == Step(cfg, s, action).state
  {
    assert [action][1..] == [];
  }

  lemma {:induction false} RunAppend(cfg: Config, s: State, a: seq<Action>, b: seq<Action>)
    ensures Run(cfg, s, a + b) == Run(cfg, Run(cfg, s, a), b)
    decreases |a|
  {
    if a == [] {
      assert a + b == b;
    } else {
      assert (a + b)[1..] == a[1..] + b;
      RunAppend(cfg, Step(cfg, s, a[0]).state, a[1..], b);
    }
  }

  const PERSON: Id := 7

  /** The state right after the first single sign-on of user PERSON, at time 0. */
  function SignedOn(cfg: Config): State {
    ExchangeStep(cfg, CallbackStep(INIT.(users := map[PERSON := true]), PERSON, "iss", "sub", Some("idp")).state, Code(0, 1)).state
  }

  const SIGN_ON := [SetUser(PERSON, true), Callback(PERSON, "iss", "sub", Some("idp")), Exchange(Code(0, 1))]

  lemma {:induction false} SignOnRun(cfg: Config)
    ensures Run(cfg, INIT, SIGN_ON) == SignedOn(cfg)
  {
    var s1 := Step(cfg, INIT, SIGN_ON[0]).state;
    var s2 := Step(cfg, s1, SIGN_ON[1]).state;
    assert s1 == INIT.(users := map[PERSON := true]);
    assert SIGN_ON[1..][1..][1..] == [];
    assert Run(cfg, INIT, SIGN_ON) == Run(cfg, s1, SIGN_ON[1..]);
    assert Run(cfg, s1, SIGN_ON[1..]) == Run(cfg, s2, SIGN_ON[1..][1..]);
    assert Run(cfg, s2, SIGN_ON[1..][1..]) == Run(cfg, Step(cfg, s2, SIGN_ON[2]).state, []);
  }

  /** What the first sign-on leaves behind: one session 0 with one refresh row 2 and one token pair. */
  lemma {:induction false} SignedOnState(cfg: Config)
    ensures
      var s := SignedOn(cfg);
      && s.now == 0 && s.next == 3 && s.users == map[PERSON := true]
      && s.identities == map[0 := IdentityRow(PERSON, "iss", "sub", Some("idp"), Code(0, 1), HANDOFF_TTL_MS, Some(0), 0)]
      && s.refresh == map[2 := RefreshRow(PERSON, REFRESH_ROW_TTL_MS, None, None, Some(0))]
      && s.revocations == map[]
      && s.accessTokens == {AccessToken(PERSON, Some(0), 0, cfg.accessTtl)}
      && s.refreshTokens == {RefreshToken(PERSON, 2, 0, cfg.refreshTtl)}
  {
    var s0 := INIT.(users := map[PERSON := true]);
    var parked := Park(s0, PERSON, "iss", "sub", Some("idp"));
    assert Swept(parked) == {};
    assert parked.identities - {} == parked.identities;
    assert parked == CallbackStep(s0, PERSON, "iss", "sub", Some("idp")).state;
  }

  lemma {:induction false} LoggedInState(cfg: Config) returns (t: AccessToken, before: seq<Action>, action: Action)
    requires cfg.accessTtl * 1000 > SID_REVOKE_TTL_MS
    ensures
      var s := Run(cfg, INIT, before);
      var ended := Step(cfg, s, action).state;
      && Ends(s, action, 0) && t.sid == Some(0)
      && Accepts(ended.(now := ended.now + SID_REVOKE_TTL_MS), t)
  {
    before := SIGN_ON;
    SignOnRun(cfg);
    SignedOnState(cfg);
    t := AccessToken(PERSON, Some(0), 0, cfg.accessTtl);
    action := Logout(t, None);
  }

  // ----- a person-level back-channel logout -----

  /** A logout that names a person ends everything that person had: every token then in flight, for good. */
  lemma {:induction false} PersonStaysSignedOut(cfg: Config, s: State, c: LogoutClaims, user: Id, after: seq<Action>, t: AccessToken)
    requires Reachable(cfg, s) && cfg.accessTtl * 1000 <= SID_REVOKE_TTL_MS
    requires user in NamedUsers(s, c) && t in s.accessTokens && t.sub == user
    ensures !Accepts(Run(cfg, BackChannel(s, c), after), t)
    ensures forall j :: j in s.refresh && s.refresh[j].userId == user ==> BackChannel(s, c).refresh[j].revokedAt.Some?
  {
    ReachableInv(cfg, s);
    var s' := BackChannel(s, c);
    BackChannelKeeps(cfg, s, c);
    var sids, users := MatchedSids(s, c), NamedUsers(s, c);
    assert UserKey(user) in BackChannelKeys(sids, users);
    assert s'.revocations[UserKey(user)].revokedAt == s.now;
    forall j | j in s.refresh && s.refresh[j].userId == user
      ensures s'.refresh[j].revokedAt.Some?
    {
      assert s.refresh[j].revokedAt.None? ==> j in BackChannelRows(s, sids, users);
    }
    DeadStaysDead(cfg, s', after, t);
    RunKeeps(cfg, s', after);
    DeadIsRejected(cfg, Run(cfg, s', after), t);
  }

  // ----- when a fresh pair works -----

  /** Every revocation of this key that still counts lies before the second that has begun. */
  predicate ClearOf(s: State, k: Key) {
    k in s.revocations && s.now < s.revocations[k].revokedUntil ==> s.revocations[k].revokedAt < s.now / 1000 * 1000
  }

  predicate ClearToIssue(s: State, user: Id, sid: Option<Id>) {
    ClearOf(s, UserKey(user)) && (sid.Some? ==> ClearOf(s, SidKey(sid.value)))
  }

  /**
   A fresh access token is accepted exactly when it has a lifetime and no revocation that still counts falls into the
   current second or later: token times are whole seconds, revocation moments are milliseconds.
   */
  lemma {:induction false} FreshAccessWorksExactly(cfg: Config, s: State, user: Id, sid: Option<Id>)
    ensures
      var minted := Mint(cfg, s, user, sid);
      Accepts(minted.state, minted.reply.access) <==> cfg.accessTtl > 0 && ClearToIssue(s, user, sid)
  {}

  /** A fresh refresh token can be exchanged under the same condition, as long as the user is active. */
  lemma {:induction false} FreshRefreshWorksExactly(cfg: Config, s: State, user: Id, sid: Option<Id>)
    ensures
      var minted := Mint(cfg, s, user, sid);
      var again := RefreshStep(cfg, minted.state, minted.reply.refresh);
      again.reply.Minted? <==> cfg.refreshTtl > 0 && Active(s, user) && ClearToIssue(s, user, sid)
  {
    var minted := Mint(cfg, s, user, sid);
    assert minted.reply.refresh.jti in minted.state.refresh;
  }

  /** A pair minted too early never works, over every run: waiting does not help, only signing in again does. */
  lemma {:induction false} StillbornAccessNeverWorks(cfg: Config, s: State, user: Id, sid: Option<Id>, after: seq<Action>)
    requires Inv(cfg, s) && MayIssue(s, user, sid) && cfg.accessTtl * 1000 <= SID_REVOKE_TTL_MS
    requires !ClearToIssue(s, user, sid)
    ensures !Accepts(Run(cfg, Issue(cfg, s, user, sid), after), NewAccess(cfg, s, user, sid))
  {
    var s', t := Issue(cfg, s, user, sid), NewAccess(cfg, s, user, sid);
    IssueKeeps(cfg, s, user, sid);
    assert Dead(s', t);
    DeadStaysDead(cfg, s', after, t);
    RunKeeps(cfg, s', after);
    DeadIsRejected(cfg, Run(cfg, s', after), t);
  }

  const LOGGED_OUT := [
    SetUser(PERSON, true), Tick(1500), BackChannelLogout(LogoutClaims("iss", None, None, Some(PERSON))), Tick(400)]

  /** It happens: a person-level logout at 1500 ms, a password login at 1900 ms. */
  lemma {:induction false} SameSecondLoginIsDead(cfg: Config)
    ensures
      var s := Run(cfg, INIT, LOGGED_OUT);
      var login := Step(cfg, s, Login(PERSON));
      login.reply.Minted? && !Accepts(login.state, login.reply.access)
  {
    LoggedOutState(cfg);
    FreshAccessWorksExactly(cfg, Run(cfg, INIT, LOGGED_OUT), PERSON, None);
  }

  lemma {:induction false} LoggedOutState(cfg: Config)
    ensures
      var s := Run(cfg, INIT, LOGGED_OUT);
      s.now == 1900 && Active(s, PERSON) && UserKey(PERSON) in s.revocations
      && s.revocations[UserKey(PERSON)] == Revocation(1500, 1500 + SID_REVOKE_TTL_MS)
  {
    var s2 := INIT.(users := map[PERSON := true], now := 1500);
    var c := LogoutClaims("iss", None, None, Some(PERSON));
    RunAppend(cfg, INIT, LOGGED_OUT[..2], LOGGED_OUT[2..]);
    assert LOGGED_OUT == LOGGED_OUT[..2] + LOGGED_OUT[2..];
    RunTwo(cfg, INIT, LOGGED_OUT[..2]);
    RunTwo(cfg, s2, LOGGED_OUT[2..]);
    assert NamedUsers(s2, c) == {PERSON};
    assert UserKey(PERSON) in BackChannelKeys(MatchedSids(s2, c), {PERSON});
  }

  lemma {:induction false} RunTwo(cfg: Config, s: State, a: seq<Action>)
    requires |a| == 2
    ensures Run(cfg, s, a) == Step(cfg, Step(cfg, s, a[0]).state, a[1]).state
  {
    assert a == [a[0]] + [a[1]];
    RunAppend(cfg, s, [a[0]], [a[1]]);
    RunOne(cfg, s, a[0]);
    RunOne(cfg, Step(cfg, s, a[0]).state, a[1]);
  }

  // ----- a code mints at most one session -----

  /** The code can never be exchanged any more. */
  ghost predicate Spent(s: State, code: Code) {
    && code.sid < s.next
    && (code.sid in s.identities && s.identities[code.sid].handoff == code ==> s.identities[code.sid].handoffClaimedAt.Some?)
  }

  lemma {:induction false} StepKeepsSpent(cfg: Config, s: State, action: Action, code: Code)
    requires Inv(cfg, s) && Spent(s, code)
    ensures Spent(Step(cfg, s, action).state, code)
  {}

  lemma {:induction false} RunKeepsSpent(cfg: Config, s: State, actions: seq<Action>, code: Code)
    requires Inv(cfg, s) && Spent(s, code)
    ensures Spent(Run(cfg, s, actions), code)
    decreases |actions|
  {
    if actions != [] {
      StepKeeps(cfg, s, actions[0]);
      StepKeepsSpent(cfg, s, actions[0], code);
      RunKeepsSpent(cfg, Step(cfg, s, actions[0]).state, actions[1..], code);
    }
  }

  /** A hand-off code mints at most one session over any run: a replay is always refused and changes nothing. */
  lemma {:induction false} CodeMintsOnce(cfg: Config, before: seq<Action>, code: Code, after: seq<Action>)
    requires ExchangeStep(cfg, Run(cfg, INIT, before), code).reply.Minted?
    ensures
      var later := Run(cfg, ExchangeStep(cfg, Run(cfg, INIT, before), code).state, after);
      ExchangeStep(cfg, later, code) == Outcome(later, Refused)
  {
    var s := Run(cfg, INIT, before);
    RunKeeps(cfg, INIT, before);
    ExchangeKeeps(cfg, s, code);
    RunKeepsSpent(cfg, ExchangeStep(cfg, s, code).state, after, code);
  }

  /** In every reachable state a sid belongs to one user and at most one unrevoked refresh row carries it. */
  lemma {:induction false} SidOwnership(cfg: Config, s: State, i: Id, j: Id)
    requires Reachable(cfg, s) && i in s.refresh && j in s.refresh
    requires s.refresh[i].sid.Some? && s.refresh[i].sid == s.refresh[j].sid
    ensures s.refresh[i].userId == s.refresh[j].userId
    ensures s.refresh[i].revokedAt.None? && s.refresh[j].revokedAt.None? ==> i == j
    ensures s.refresh[i].sid.value in s.identities ==> s.identities[s.refresh[i].sid.value].userId == s.refresh[i].userId
  {
    ReachableInv(cfg, s);
    assert s.refresh[i].revokedAt.None? && s.refresh[j].revokedAt.None? ==> LiveWithSameSid(s.refresh[i], s.refresh[j]);
  }

  /** A rotation revokes the presented row and its successor keeps user and sid. */
  lemma {:induction false} RotationKeepsSid(cfg: Config, s: State, t: RefreshToken)
    requires Reachable(cfg, s) && RefreshStep(cfg, s, t).reply.Minted?
    ensures
      var r := RefreshStep(cfg, s, t);
      var row, successor := s.refresh[t.jti], r.state.refresh[r.reply.refresh.jti];
      && r.reply.refresh.jti !in s.refresh
      && successor.sid == row.sid && successor.userId == row.userId && successor.revokedAt.None?
      && r.reply.access.sid == row.sid && r.reply.access.sub == row.userId
      && r.state.refresh[t.jti].revokedAt.Some?
      && RefreshStep(cfg, r.state, t) == Outcome(r.state, Refused)
  {
    ReachableInv(cfg, s);
  }

  // ----- the sweep -----

  /** The sweep deletes no row with a live chain and none whose code could still be exchanged. */
  lemma {:induction false} SweepIsCareful(cfg: Config, s: State, x: Id)
    requires Reachable(cfg, s) && x in Swept(s)
    ensures !ChainAlive(s, x) && !Claimable(s, s.identities[x].handoff)
  {
    ReachableInv(cfg, s);
  }

  /** Every session that can still be refreshed has its identity row. */
  ghost predicate AlwaysFindable(cfg: Config) {
    forall actions: seq<Action>, t: RefreshToken ::
      Refreshable(Run(cfg, INIT, actions), t) && Run(cfg, INIT, actions).refresh[t.jti].sid.Some? ==>
        Run(cfg, INIT, actions).refresh[t.jti].sid.value in Run(cfg, INIT, actions).identities
  }

  /**
   A back-channel logout can find every session that can still be refreshed, over every run, exactly when the refresh
   JWT does not outlive the 30 days of its row: otherwise the sweep, which counts a row as dead in its last
   millisecond, can delete the identity of a chain that the refresh handler still rotates.
   */
  lemma {:induction false} AlwaysFindableExactly(cfg: Config)
    ensures AlwaysFindable(cfg) <==> cfg.refreshTtl <= 2592000
  {
    if cfg.refreshTtl * 1000 <= REFRESH_ROW_TTL_MS {
      forall actions: seq<Action>, t: RefreshToken
        | Refreshable(Run(cfg, INIT, actions), t) && Run(cfg, INIT, actions).refresh[t.jti].sid.Some?
        ensures Run(cfg, INIT, actions).refresh[t.jti].sid.value in Run(cfg, INIT, actions).identities
      {
        RunKeeps(cfg, INIT, actions);
        TokenDiesFirst(cfg, Run(cfg, INIT, actions), t);
      }
    } else {
      var actions, t := LastMillisecond(cfg);
      assert !(Run(cfg, INIT, actions).refresh[t.jti].sid.value in Run(cfg, INIT, actions).identities);
    }
  }

  /** The witness: sign on, wait until the row's last millisecond, let somebody else's sign-on sweep. */
  lemma {:induction false} LastMillisecond(cfg: Config) returns (actions: seq<Action>, t: RefreshToken)
    requires cfg.refreshTtl * 1000 > REFRESH_ROW_TTL_MS
    ensures
      var s := Run(cfg, INIT, actions);
      Refreshable(s, t) && s.refresh[t.jti].sid.Some? && s.refresh[t.jti].sid.value !in s.identities
  {
    var signedOn := SignedOn(cfg);
    SignOnRun(cfg);
    SignedOnState(cfg);
    var late := signedOn.(now := REFRESH_ROW_TTL_MS);
    var tail := [Tick(REFRESH_ROW_TTL_MS), Callback(PERSON, "iss", "sub", Some("idp"))];
    actions := SIGN_ON + tail;
    t := RefreshToken(PERSON, 2, 0, cfg.refreshTtl);
    RunAppend(cfg, INIT, SIGN_ON, tail);
    assert Step(cfg, signedOn, tail[0]).state == late;
    RunOne(cfg, late, tail[1]);
    assert tail[1..] == [tail[1]];
    var parked := Park(late, PERSON, "iss", "sub", Some("idp"));
    assert 0 in Swept(parked) by {
      assert parked.identities[0].createdAt == 0;
      assert !ChainAlive(parked, 0);
    }
    var s := Run(cfg, INIT, actions);
    assert s == DropIdentities(parked, Swept(parked));
    assert s.refresh == signedOn.refresh && s.now == REFRESH_ROW_TTL_MS;
  }
}
