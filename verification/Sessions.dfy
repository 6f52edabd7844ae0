/**
 SSO sessions and refresh tokens as a transition system: identity rows, refresh rows, the revocation list, the tokens
 minted so far and a clock (vibeAuth.ts, sessions.ts, routes/auth.ts, middleware/auth.ts). One handler is one step.
 Row times are milliseconds; token times (iat, exp) are seconds. Random ids and codes come from a supply that never
 repeats; a token is valid exactly when it was minted.
 */
module Sessions {
  import opened Wrappers

  type Id = nat

  const HANDOFF_TTL_MS: nat := 60 * 1000
  const SID_REVOKE_TTL_MS: nat := 24 * 60 * 60 * 1000
  const SWEEP_GRACE_MS: nat := 60 * 60 * 1000
  const REFRESH_ROW_TTL_MS: nat := 30 * 24 * 60 * 60 * 1000

  /** The two token lifetimes of the environment, in seconds. */
  datatype Config = Config(accessTtl: nat, refreshTtl: nat)

  /** A one-time hand-off code; finding its row by hash is finding the row it was drawn for. */
  datatype Code = Code(sid: Id, nonce: Id)

  datatype IdentityRow = IdentityRow(
    userId: Id,
    issuer: string,
    subject: string,
    oidcSid: Option<string>,
    handoff: Code,
    handoffExpiresAt: nat,
    handoffClaimedAt: Option<nat>,
    createdAt: nat)

  datatype RefreshRow = RefreshRow(
    userId: Id,
    expiresAt: nat,
    revokedAt: Option<nat>,
    rotatedAt: Option<nat>,
    sid: Option<Id>)

  datatype Key = UserKey(id: Id) | SidKey(sid: Id)

  datatype Revocation = Revocation(revokedAt: nat, revokedUntil: nat)

  datatype AccessToken = AccessToken(sub: Id, sid: Option<Id>, iat: nat, exp: nat)

  datatype RefreshToken = RefreshToken(sub: Id, jti: Id, iat: nat, exp: nat)

  /** `accessTokens`, `refreshTokens` and `owners` are history: every token ever minted, and the user each sid was drawn for. */
  datatype State = State(
    now: nat,
    next: Id,
    users: map<Id, bool>,
    identities: map<Id, IdentityRow>,
    refresh: map<Id, RefreshRow>,
    revocations: map<Key, Revocation>,
    accessTokens: set<AccessToken>,
    refreshTokens: set<RefreshToken>,
    owners: map<Id, Id>)

  const INIT := State(0, 0, map[], map[], map[], map[], {}, {}, map[])

  predicate Active(s: State, user: Id) {
    user in s.users && s.users[user]
  }

  // ----- what is accepted -----

  predicate VerifiesAccess(s: State, t: AccessToken) {
    t in s.accessTokens && s.now / 1000 < t.exp
  }

  predicate VerifiesRefresh(s: State, t: RefreshToken) {
    t in s.refreshTokens && s.now / 1000 < t.exp
  }

  /** Tokens issued at or before `revokedAt` are rejected until `revokedUntil`. */
  predicate KeyRevoked(s: State, k: Key, issuedAtMs: nat) {
    k in s.revocations && issuedAtMs <= s.revocations[k].revokedAt && s.now < s.revocations[k].revokedUntil
  }

  predicate IsTokenRevoked(s: State, sub: Id, sid: Option<Id>, iat: nat) {
    KeyRevoked(s, UserKey(sub), iat * 1000) || (sid.Some? && KeyRevoked(s, SidKey(sid.value), iat * 1000))
  }

  /** requireAuth lets the request through. */
  predicate Accepts(s: State, t: AccessToken) {
    VerifiesAccess(s, t) && !IsTokenRevoked(s, t.sub, t.sid, t.iat)
  }

  // ----- row-level effects -----

  function Revoke(s: State, rows: set<Id>): State {
    s.(refresh := map j | j in s.refresh :: if j in rows then s.refresh[j].(revokedAt := Some(s.now)) else s.refresh[j])
  }

  function DropIdentities(s: State, sids: set<Id>): State {
    s.(identities := s.identities - sids)
  }

  function Blacklist(s: State, keys: set<Key>): State {
    s.(revocations := s.revocations + (map k | k in keys :: Revocation(s.now, s.now + SID_REVOKE_TTL_MS)))
  }

  function LiveRowsOfSid(s: State, sid: Id): set<Id> {
    set j | j in s.refresh && s.refresh[j].sid == Some(sid) && s.refresh[j].revokedAt.None?
  }

  function LiveRowsOfUser(s: State, user: Id): set<Id> {
    set j | j in s.refresh && s.refresh[j].userId == user && s.refresh[j].revokedAt.None?
  }

  function NewAccess(cfg: Config, s: State, user: Id, sid: Option<Id>): AccessToken {
    AccessToken(user, sid, s.now / 1000, s.now / 1000 + cfg.accessTtl)
  }

  function NewRefresh(cfg: Config, s: State, user: Id): RefreshToken {
    RefreshToken(user, s.next, s.now / 1000, s.now / 1000 + cfg.refreshTtl)
  }

  /** issueTokens: one refresh row and the pair. */
  function Issue(cfg: Config, s: State, user: Id, sid: Option<Id>): State {
    s.(next := s.next + 1,
       refresh := s.refresh[s.next := RefreshRow(user, s.now + REFRESH_ROW_TTL_MS, None, None, sid)],
       accessTokens := s.accessTokens + {NewAccess(cfg, s, user, sid)},
       refreshTokens := s.refreshTokens + {NewRefresh(cfg, s, user)})
  }

  /** endSsoSession: the identity row, its refresh chain, and the access tokens in flight. */
  function EndSso(s: State, sid: Id): State {
    Blacklist(DropIdentities(Revoke(s, LiveRowsOfSid(s, sid)), {sid}), {SidKey(sid)})
  }

  /** Some unrevoked, unexpired refresh row carries this sid. */
  predicate ChainAlive(s: State, sid: Id) {
    exists j :: j in s.refresh && s.refresh[j].sid == Some(sid) && s.refresh[j].revokedAt.None? && s.refresh[j].expiresAt > s.now
  }

  /** The rows the sweep deletes: past the grace hour, with no live chain. */
  function Swept(s: State): set<Id> {
    set sid | sid in s.identities && s.identities[sid].createdAt + SWEEP_GRACE_MS < s.now && !ChainAlive(s, sid)
  }

  /** Park an identity under a fresh sid with a fresh code. */
  function Park(s: State, user: Id, issuer: string, subject: string, oidcSid: Option<string>): State {
    s.(next := s.next + 2,
       identities := s.identities[s.next :=
         IdentityRow(user, issuer, subject, oidcSid, Code(s.next, s.next + 1), s.now + HANDOFF_TTL_MS, None, s.now)],
       owners := s.owners[s.next := user])
  }

  predicate Claimable(s: State, code: Code) {
    && code.sid in s.identities
    && s.identities[code.sid].handoff == code
    && s.identities[code.sid].handoffClaimedAt.None?
    && s.identities[code.sid].handoffExpiresAt > s.now
  }

  function Claim(s: State, sid: Id): State
    requires sid in s.identities
  {
    s.(identities := s.identities[sid := s.identities[sid].(handoffClaimedAt := Some(s.now))])
  }

  /** The refresh row a token may be exchanged for, before the user is looked at. */
  predicate Refreshable(s: State, t: RefreshToken) {
    && VerifiesRefresh(s, t)
    && t.jti in s.refresh
    && s.refresh[t.jti].revokedAt.None?
    && s.refresh[t.jti].expiresAt >= s.now
    && !IsTokenRevoked(s, t.sub, s.refresh[t.jti].sid, t.iat)
  }

  function Rotate(s: State, j: Id): State
    requires j in s.refresh
  {
    s.(refresh := s.refresh[j := s.refresh[j].(revokedAt := Some(s.now), rotatedAt := Some(s.now))])
  }

  // ----- back-channel logout -----

  datatype LogoutClaims = LogoutClaims(issuer: string, subject: Option<string>, oidcSid: Option<string>, userId: Option<Id>)

  predicate Matches(row: IdentityRow, c: LogoutClaims) {
    || (c.oidcSid.Some? && row.oidcSid == c.oidcSid)
    || (c.subject.Some? && row.issuer == c.issuer && row.subject == c.subject.value)
    || (c.userId.Some? && row.userId == c.userId.value)
  }

  function MatchedSids(s: State, c: LogoutClaims): set<Id> {
    set sid | sid in s.identities && Matches(s.identities[sid], c)
  }

  /** A logout that names a person, not just an IdP session, ends all of that person's sessions. */
  function NamedUsers(s: State, c: LogoutClaims): set<Id> {
    if c.userId.None? && c.subject.None? then {}
    else (set sid | sid in MatchedSids(s, c) :: s.identities[sid].userId) + (if c.userId.Some? then {c.userId.value} else {})
  }

  function BackChannelRows(s: State, sids: set<Id>, users: set<Id>): set<Id> {
    set j | j in s.refresh && s.refresh[j].revokedAt.None? &&
      ((s.refresh[j].sid.Some? && s.refresh[j].sid.value in sids) || s.refresh[j].userId in users)
  }

  function BackChannelKeys(sids: set<Id>, users: set<Id>): set<Key> {
    (set sid | sid in sids :: SidKey(sid)) + (set u | u in users :: UserKey(u))
  }

  function BackChannel(s: State, c: LogoutClaims): State {
    var sids, users := MatchedSids(s, c), NamedUsers(s, c);
    Blacklist(DropIdentities(Revoke(s, BackChannelRows(s, sids, users)), sids), BackChannelKeys(sids, users))
  }

  // ----- steps -----

  datatype Action =
    | SetUser(user: Id, active: bool)
    | Login(user: Id)
    | Callback(user: Id, issuer: string, subject: string, oidcSid: Option<string>)
    | Exchange(code: Code)
    | Refresh(token: RefreshToken)
    | Logout(access: AccessToken, refreshToken: Option<RefreshToken>)
    | FrontLogout(access: AccessToken)
    | BackChannelLogout(claims: LogoutClaims)
    | ChangePassword(access: AccessToken, keep: Option<RefreshToken>)
    | ResetPassword(user: Id)
    | Tick(ms: nat)

  datatype Reply =
    | Refused
    | Done
    | Parked(code: Code)
    | Minted(access: AccessToken, refresh: RefreshToken)

  datatype Outcome = Outcome(state: State, reply: Reply)

  function Mint(cfg: Config, s: State, user: Id, sid: Option<Id>): Outcome {
    Outcome(Issue(cfg, s, user, sid), Minted(NewAccess(cfg, s, user, sid), NewRefresh(cfg, s, user)))
  }

  function CallbackStep(s: State, user: Id, issuer: string, subject: string, oidcSid: Option<string>): Outcome {
    if user !in s.users then Outcome(s, Refused)
    else
      var parked := Park(s, user, issuer, subject, oidcSid);
      Outcome(DropIdentities(parked, Swept(parked)), Parked(Code(s.next, s.next + 1)))
  }

  function ExchangeStep(cfg: Config, s: State, code: Code): Outcome {
    if !Claimable(s, code) then Outcome(s, Refused)
    else
      var claimed := Claim(s, code.sid);
      var user := s.identities[code.sid].userId;
      if Active(s, user) then Mint(cfg, claimed, user, Some(code.sid)) else Outcome(claimed, Refused)
  }

  function RefreshStep(cfg: Config, s: State, t: RefreshToken): Outcome {
    if !Refreshable(s, t) || !Active(s, t.sub) then Outcome(s, Refused)
    else Mint(cfg, Rotate(s, t.jti), t.sub, s.refresh[t.jti].sid)
  }

  /** The row a presented refresh token names, if the token verifies. */
  function PresentedRow(s: State, t: Option<RefreshToken>): set<Id> {
    if t.Some? && VerifiesRefresh(s, t.value) then {t.value.jti} else {}
  }

  function LogoutStep(s: State, a: AccessToken, t: Option<RefreshToken>): Outcome {
    if !Accepts(s, a) then Outcome(s, Refused)
    else
      var revoked := Revoke(s, PresentedRow(s, t));
      Outcome(if a.sid.Some? then EndSso(revoked, a.sid.value) else revoked, Done)
  }

  /** The package's own logout: the session adapter's destroy, which does not consult the revocation list. */
  function FrontLogoutStep(s: State, a: AccessToken): Outcome {
    Outcome(if VerifiesAccess(s, a) && a.sid.Some? then EndSso(s, a.sid.value) else s, Done)
  }

  function ChangePasswordStep(s: State, a: AccessToken, keep: Option<RefreshToken>): Outcome {
    if !Accepts(s, a) || !Active(s, a.sub) then Outcome(s, Refused)
    else
      var kept := if keep.Some? && keep.value.sub == a.sub then PresentedRow(s, keep) else {};
      Outcome(Revoke(s, LiveRowsOfUser(s, a.sub) - kept), Done)
  }

  function Step(cfg: Config, s: State, a: Action): Outcome {
    match a
    case SetUser(u, active) => Outcome(s.(users := s.users[u := active]), Done)
    case Login(u) => if Active(s, u) then Mint(cfg, s, u, None) else Outcome(s, Refused)
    case Callback(u, issuer, subject, oidcSid) => CallbackStep(s, u, issuer, subject, oidcSid)
    case Exchange(code) => ExchangeStep(cfg, s, code)
    case Refresh(t) => RefreshStep(cfg, s, t)
    case Logout(acc, t) => LogoutStep(s, acc, t)
    case FrontLogout(acc) => FrontLogoutStep(s, acc)
    case BackChannelLogout(c) => Outcome(BackChannel(s, c), Done)
    case ChangePassword(acc, keep) => ChangePasswordStep(s, acc, keep)
    case ResetPassword(u) => Outcome(Revoke(s, LiveRowsOfUser(s, u)), Done)
    case Tick(ms) => Outcome(s.(now := s.now + ms), Done)
  }

  /** The state after a run. */
  function Run(cfg: Config, s: State, actions: seq<Action>): State
    decreases |actions|
  {
    if actions == [] then s else Run(cfg, Step(cfg, s, actions[0]).state, actions[1..])
  }
}
