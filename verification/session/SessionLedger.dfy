/** The token ledger as a value, and every handler as a function on it.

    Time is counted in microseconds, the resolution of a Python datetime; a JWT
    carries its expiry in whole seconds.  One handler reads the clock once.
    Names drawn at random (jti values, reset digests) are parameters.
  */
module SessionLedger {
  import opened Prelude

  type Time = int
  type UserId = nat
  type Jti = nat
  type Digest = nat
  type PasswordHash = nat

  function Seconds(n: int): Time { n * 1_000_000 }
  function Minutes(n: int): Time { n * 60_000_000 }
  function Days(n: int): Time { n * 86_400_000_000 }

  /** The JWT settings; all three are taken as they come, zero included. */
  datatype Config = Config(accessMinutes: nat, refreshDays: nat, resetMinutes: nat)

  datatype Kind = Access | Refresh

  /** The claims of a signed token (section 4.1 of RFC 7519) that any handler reads. */
  datatype Token = Token(kind: Kind, jti: Jti, sub: UserId, tv: nat, exp: Time)

  datatype User = User(active: bool, tokenVersion: nat, password: PasswordHash)

  datatype RefreshRow =
    RefreshRow(user: UserId, expiresAt: Time, revokedAt: Option<Time>, replacedBy: Option<Jti>)

  datatype ResetRow = ResetRow(user: UserId, expiresAt: Time, usedAt: Option<Time>)

  datatype Ledger = Ledger(
    users: map<UserId, User>, refresh: map<Jti, RefreshRow>, resets: map<Digest, ResetRow>)

  /** Where a refresh token came from: the login that started its chain, and
      how many rotations lie between. */
  datatype Origin = Origin(login: nat, pos: nat)

  /** What the database does not keep but the theorems speak of: the origin of
      every refresh token, the newest token of every login, every digest issued. */
  datatype History = History(origin: map<Jti, Origin>, heads: seq<Jti>, issued: set<Digest>)

  /** `signed` holds every token the server ever signed; a signature verifies
      exactly when the token is one of them. */
  datatype World = World(db: Ledger, signed: map<Jti, Token>, now: Time, hist: History)

  const INITIAL: World := World(Ledger(map[], map[], map[]), map[], 0, History(map[], [], {}))

  /* ---------- claims ---------- */

  function WholeSecond(t: Time): int { t / 1_000_000 }

  /** `decode_token`: the signature verifies and the whole-second expiry has not passed. */
  predicate Decodes(w: World, t: Token) {
    t.jti in w.signed && w.signed[t.jti] == t && WholeSecond(w.now) <= WholeSecond(t.exp)
  }

  function MintAccess(cfg: Config, w: World, u: UserId, jti: Jti): Token
    requires u in w.db.users
  {
    Token(Access, jti, u, w.db.users[u].tokenVersion, w.now + Minutes(cfg.accessMinutes))
  }

  function MintRefresh(cfg: Config, w: World, u: UserId, jti: Jti): Token
    requires u in w.db.users
  {
    Token(Refresh, jti, u, w.db.users[u].tokenVersion, w.now + Days(cfg.refreshDays))
  }

  function FreshRow(t: Token): RefreshRow { RefreshRow(t.sub, t.exp, None, None) }

  /* ---------- statements on the ledger ---------- */

  /** The bulk UPDATE of `revoke_all_user_tokens`. */
  function RevokeRows(rows: map<Jti, RefreshRow>, u: UserId, now: Time): map<Jti, RefreshRow> {
    map j | j in rows ::
      if rows[j].user == u && rows[j].revokedAt.None? then rows[j].(revokedAt := Some(now)) else rows[j]
  }

  function BumpVersion(users: map<UserId, User>, u: UserId): map<UserId, User> {
    if u in users then users[u := users[u].(tokenVersion := users[u].tokenVersion + 1)] else users
  }

  function RevokeAll(db: Ledger, u: UserId, now: Time): Ledger {
    db.(refresh := RevokeRows(db.refresh, u, now), users := BumpVersion(db.users, u))
  }

  function RevokeOne(db: Ledger, j: Jti, now: Time): Ledger {
    if j in db.refresh && db.refresh[j].revokedAt.None?
    then db.(refresh := db.refresh[j := db.refresh[j].(revokedAt := Some(now))])
    else db
  }

  function SetPassword(db: Ledger, u: UserId, hash: PasswordHash): Ledger
    requires u in db.users
  {
    db.(users := db.users[u := db.users[u].(password := hash)])
  }

  predicate Usable(r: ResetRow, now: Time) { r.usedAt.None? && r.expiresAt > now }

  /** Every other unused reset row of the user is pushed into the past. */
  function ExpirePending(resets: map<Digest, ResetRow>, u: UserId, now: Time): map<Digest, ResetRow> {
    map d | d in resets ::
      if resets[d].user == u && resets[d].usedAt.None? then resets[d].(expiresAt := now - Seconds(1)) else resets[d]
  }

  predicate RefreshPastRetention(r: RefreshRow, cutoff: Time) {
    r.expiresAt < cutoff || (r.revokedAt.Some? && r.revokedAt.value < cutoff)
  }

  predicate ResetPastRetention(r: ResetRow, cutoff: Time) {
    r.expiresAt < cutoff || (r.usedAt.Some? && r.usedAt.value < cutoff)
  }

  /** The two DELETE statements of the nightly task. */
  function Swept(db: Ledger, cutoff: Time): Ledger {
    db.(refresh := map j | j in db.refresh && !RefreshPastRetention(db.refresh[j], cutoff) :: db.refresh[j],
        resets := map d | d in db.resets && !ResetPastRetention(db.resets[d], cutoff) :: db.resets[d])
  }

  /* ---------- handlers ---------- */

  datatype Refusal = BadToken | UnknownJti | Reused | RowExpired | NoUser | StaleVersion

  datatype Verdict = Rotated(access: Token, refresh: Token) | Rejected(why: Refusal)

  /** `issue_token_pair`. */
  function IssuePair(cfg: Config, w: World, u: UserId, jti: Jti, accessJti: Jti): (World, Verdict)
    requires u in w.db.users
  {
    var access := MintAccess(cfg, w, u, accessJti);
    var refresh := MintRefresh(cfg, w, u, jti);
    var world := w.(
      db := w.db.(refresh := w.db.refresh[jti := FreshRow(refresh)]),
      signed := w.signed[accessJti := access][jti := refresh],
      hist := Begin(w.hist, jti));
    (world, Rotated(access, refresh))
  }

  function Begin(h: History, jti: Jti): History {
    h.(origin := h.origin[jti := Origin(|h.heads|, 0)], heads := h.heads + [jti])
  }

  function Succeed(h: History, from: Jti, jti: Jti): History {
    if from in h.origin && h.origin[from].login < |h.heads| then
      var o := h.origin[from];
      h.(origin := h.origin[jti := Origin(o.login, o.pos + 1)], heads := h.heads[o.login := jti])
    else h
  }

  /** `rotate_refresh_token`, every refusal told apart although the client sees one 401. */
  function Rotate(cfg: Config, w: World, t: Token, jti: Jti, accessJti: Jti): (World, Verdict) {
    if !Decodes(w, t) || t.kind != Refresh then (w, Rejected(BadToken))
    else if t.jti !in w.db.refresh then (w, Rejected(UnknownJti))
    else
      var row := w.db.refresh[t.jti];
      if row.revokedAt.Some? then (w.(db := RevokeAll(w.db, row.user, w.now)), Rejected(Reused))
      else if row.expiresAt <= w.now then (w, Rejected(RowExpired))
      else if row.user !in w.db.users || !w.db.users[row.user].active then (w, Rejected(NoUser))
      else if t.tv != w.db.users[row.user].tokenVersion then (w, Rejected(StaleVersion))
      else
        var access := MintAccess(cfg, w, row.user, accessJti);
        var refresh := MintRefresh(cfg, w, row.user, jti);
        var closed := row.(revokedAt := Some(w.now), replacedBy := Some(jti));
        (w.(db := w.db.(refresh := w.db.refresh[t.jti := closed][jti := FreshRow(refresh)]),
            signed := w.signed[jti := refresh][accessJti := access],
            hist := Succeed(w.hist, t.jti, jti)),
         Rotated(access, refresh))
  }

  /** `_resolve_active_user`. */
  function Resolve(w: World, t: Token): Option<UserId> {
    if !Decodes(w, t) || t.kind != Access then None
    else if t.sub !in w.db.users || !w.db.users[t.sub].active then None
    else if t.tv != w.db.users[t.sub].tokenVersion then None
    else Some(t.sub)
  }

  /** `logout`: the presented refresh token, whoever owns it, then every token of the caller. */
  function LogoutOf(w: World, u: UserId, t: Token): World {
    var db := if Decodes(w, t) then RevokeOne(w.db, t.jti, w.now) else w.db;
    w.(db := RevokeAll(db, u, w.now))
  }

  function PasswordChange(w: World, u: UserId, hash: PasswordHash): World
    requires u in w.db.users
  {
    w.(db := RevokeAll(SetPassword(w.db, u, hash), u, w.now))
  }

  /** `create_reset_token` once a digest that is not in the table was found. */
  function CreateReset(cfg: Config, w: World, u: UserId, d: Digest): World {
    w.(db := w.db.(resets :=
         ExpirePending(w.db.resets, u, w.now)[d := ResetRow(u, w.now + Minutes(cfg.resetMinutes), None)]),
       hist := w.hist.(issued := w.hist.issued + {d}))
  }

  predicate ResetAccepted(w: World, d: Digest) {
    && d in w.db.resets && Usable(w.db.resets[d], w.now)
    && w.db.resets[d].user in w.db.users && w.db.users[w.db.resets[d].user].active
  }

  /** `consume_reset_token`. */
  function ConsumeReset(w: World, d: Digest, hash: PasswordHash): World {
    if ResetAccepted(w, d) then
      var row := w.db.resets[d];
      PasswordChange(w.(db := w.db.(resets := w.db.resets[d := row.(usedAt := Some(w.now))])), row.user, hash)
    else w
  }

  function CleanUp(w: World, retentionDays: nat): World {
    w.(db := Swept(w.db, w.now - Days(retentionDays)))
  }

  /* ---------- runs ---------- */

  /** `admitted` and `accepted` stand for the checks outside the ledger: the
      organization is active, bcrypt agrees, the new password is strong enough. */
  datatype Event =
    | CreateUser(user: UserId, hash: PasswordHash)
    | SetActive(user: UserId, active: bool)
    | Login(user: UserId, admitted: bool, jti: Jti, accessJti: Jti)
    | Renew(token: Token, jti: Jti, accessJti: Jti)
    | Authenticate(token: Token)
    | Logout(access: Token, token: Token)
    | ChangePassword(access: Token, accepted: bool, hash: PasswordHash)
    | AdminSetPassword(user: UserId, hash: PasswordHash)
    | ForgotPassword(user: UserId, digest: Digest)
    | ResetPassword(digest: Digest, hash: PasswordHash)
    | Cleanup(retentionDays: nat)
    | Elapse(duration: nat)

  /** What the caller of a handler can see. */
  datatype Response = Pair(access: Token, refresh: Token) | Honoured(user: UserId) | Refused | Silent

  function Step(cfg: Config, w: World, e: Event): (World, Response) {
    match e
    case CreateUser(u, hash) => (w.(db := w.db.(users := w.db.users[u := User(true, 0, hash)])), Silent)
    case SetActive(u, b) =>
      if u in w.db.users then (w.(db := w.db.(users := w.db.users[u := w.db.users[u].(active := b)])), Silent)
      else (w, Refused)
    case Login(u, admitted, jti, accessJti) =>
      if u in w.db.users && admitted && w.db.users[u].active then
        var (world, v) := IssuePair(cfg, w, u, jti, accessJti);
        (world, Answer(v))
      else (w, Refused)
    case Renew(t, jti, accessJti) =>
      var (world, v) := Rotate(cfg, w, t, jti, accessJti);
      (world, Answer(v))
    case Authenticate(t) => (w, Caller(Resolve(w, t)))
    case Logout(access, t) =>
      var who := Resolve(w, access);
      (if who.Some? then LogoutOf(w, who.value, t) else w, Caller(who))
    case ChangePassword(access, accepted, hash) =>
      var who := Resolve(w, access);
      if who.Some? && accepted then (PasswordChange(w, who.value, hash), Caller(who)) else (w, Refused)
    case AdminSetPassword(u, hash) =>
      if u in w.db.users then (PasswordChange(w, u, hash), Silent) else (w, Refused)
    case ForgotPassword(u, d) =>
      (if u in w.db.users && w.db.users[u].active then CreateReset(cfg, w, u, d) else w, Silent)
    case ResetPassword(d, hash) =>
      (ConsumeReset(w, d, hash), if ResetAccepted(w, d) then Honoured(w.db.resets[d].user) else Refused)
    case Cleanup(days) => (CleanUp(w, days), Silent)
    case Elapse(d) => (w.(now := w.now + d), Silent)
  }

  function Answer(v: Verdict): Response {
    if v.Rotated? then Pair(v.access, v.refresh) else Refused
  }

  function Caller(who: Option<UserId>): Response {
    if who.Some? then Honoured(who.value) else Refused
  }

  /** The events that end every session of a user: logout, each way of changing the password, and
      the presentation of a token already rotated or revoked. */
  predicate EndsSessions(w: World, e: Event, u: UserId) {
    match e
    case Logout(access, _) => Resolve(w, access) == Some(u)
    case ChangePassword(access, accepted, _) => accepted && Resolve(w, access) == Some(u)
    case AdminSetPassword(v, _) => v == u && u in w.db.users
    case ResetPassword(d, _) => ResetAccepted(w, d) && w.db.resets[d].user == u
    case Renew(t, _, _) =>
      && Decodes(w, t) && t.kind == Refresh && t.jti in w.db.refresh
      && w.db.refresh[t.jti].revokedAt.Some? && w.db.refresh[t.jti].user == u
    case _ => false
  }

  /** The random names an event draws are new. */
  predicate Enabled(w: World, e: Event) {
    match e
    case CreateUser(u, _) => u !in w.db.users
    case Login(_, _, jti, accessJti) => jti !in w.signed && accessJti !in w.signed && jti != accessJti
    case Renew(_, jti, accessJti) => jti !in w.signed && accessJti !in w.signed && jti != accessJti
    case ForgotPassword(_, d) => d !in w.hist.issued
    case _ => true
  }

  predicate Possible(cfg: Config, w: World, es: seq<Event>)
    decreases |es|
  {
    es == [] || (Enabled(w, es[0]) && Possible(cfg, Step(cfg, w, es[0]).0, es[1..]))
  }

  function Run(cfg: Config, w: World, es: seq<Event>): World
    decreases |es|
  {
    if es == [] then w else Run(cfg, Step(cfg, w, es[0]).0, es[1..])
  }

  function Responses(cfg: Config, w: World, es: seq<Event>): seq<Response>
    decreases |es|
  {
    if es == [] then [] else
      var (world, r) := Step(cfg, w, es[0]);
      [r] + Responses(cfg, world, es[1..])
  }
}
