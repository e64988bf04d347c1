/** What every event keeps, and what follows from it in every reachable state. */
module SessionInvariant {
  import opened Prelude
  import opened SessionLedger

  type Signed = map<Jti, Token>
  type Users = map<UserId, User>

  /* ---------- the invariant ---------- */

  /** No token is ahead of its user's version or was minted in the future. */
  ghost predicate TokenOk(cfg: Config, users: Users, now: Time, j: Jti, t: Token) {
    && t.jti == j && t.sub in users && t.tv <= users[t.sub].tokenVersion
    && (t.kind == Refresh ==> t.exp <= now + Days(cfg.refreshDays))
  }

  ghost predicate TokensOk(cfg: Config, w: World) {
    forall j | j in w.signed :: TokenOk(cfg, w.db.users, w.now, j, w.signed[j])
  }

  /** A row describes a signed refresh token; an unrevoked one is at the user's version. */
  ghost predicate RowOk(cfg: Config, signed: Signed, users: Users, now: Time, j: Jti, r: RefreshRow) {
    && j in signed && signed[j].kind == Refresh
    && r.user == signed[j].sub && r.expiresAt == signed[j].exp && r.user in users
    && (r.revokedAt.None? ==> signed[j].tv == users[r.user].tokenVersion)
    && (r.revokedAt.Some? ==> r.expiresAt <= r.revokedAt.value + Days(cfg.refreshDays) && r.revokedAt.value <= now)
  }

  ghost predicate RowsOk(cfg: Config, w: World) {
    forall j | j in w.db.refresh :: RowOk(cfg, w.signed, w.db.users, w.now, j, w.db.refresh[j])
  }

  /** Each login owns one chain of refresh tokens, numbered without gaps up to its head. */
  ghost predicate PlaceOk(signed: Signed, h: History, j: Jti)
    requires j in h.origin
  {
    var o := h.origin[j];
    && j in signed && signed[j].kind == Refresh && o.login < |h.heads|
    && var head := h.heads[o.login];
       && head in signed && head in h.origin && h.origin[head].login == o.login
       && signed[j].sub == signed[head].sub
       && (j == head || o.pos < h.origin[head].pos)
  }

  ghost predicate HeadOk(h: History, l: nat)
    requires l < |h.heads|
  {
    h.heads[l] in h.origin && h.origin[h.heads[l]].login == l
  }

  ghost predicate ChainsOk(signed: Signed, h: History) {
    && (forall j | j in h.origin :: PlaceOk(signed, h, j))
    && (forall l: nat | l < |h.heads| :: HeadOk(h, l))
    && (forall j | j in signed && signed[j].kind == Refresh :: j in h.origin)
  }

  /** No two tokens of a chain hold the same place. */
  ghost predicate PlacesDiffer(h: History) {
    forall j, k | j in h.origin && k in h.origin && j != k :: h.origin[j] != h.origin[k]
  }

  /** A row is linked to the next token of its chain, and only the head is not linked. */
  ghost predicate LinkOk(h: History, j: Jti, r: RefreshRow) {
    && j in h.origin && h.origin[j].login < |h.heads|
    && match r.replacedBy
       case None => j == h.heads[h.origin[j].login]
       case Some(k) =>
         r.revokedAt.Some? && k in h.origin && h.origin[k] == Origin(h.origin[j].login, h.origin[j].pos + 1)
  }

  ghost predicate LinksOk(h: History, rows: map<Jti, RefreshRow>) {
    forall j | j in rows :: LinkOk(h, j, rows[j])
  }

  ghost predicate ResetsOk(w: World) {
    && (forall d | d in w.db.resets :: d in w.hist.issued)
    && (forall c, d | c in w.db.resets && d in w.db.resets && c != d && w.db.resets[c].user == w.db.resets[d].user ::
          !(Usable(w.db.resets[c], w.now) && Usable(w.db.resets[d], w.now)))
  }

  ghost predicate Inv(cfg: Config, w: World) {
    && TokensOk(cfg, w) && RowsOk(cfg, w) && ResetsOk(w)
    && ChainsOk(w.signed, w.hist) && PlacesDiffer(w.hist) && LinksOk(w.hist, w.db.refresh)
  }

  /* ---------- the invariant is kept ---------- */

  lemma RevokedRow(cfg: Config, w: World, u: UserId, j: Jti)
    requires TokensOk(cfg, w) && j in w.db.refresh
    requires RowOk(cfg, w.signed, w.db.users, w.now, j, w.db.refresh[j]) && LinkOk(w.hist, j, w.db.refresh[j])
    ensures var db := RevokeAll(w.db, u, w.now);
      RowOk(cfg, w.signed, db.users, w.now, j, db.refresh[j]) && LinkOk(w.hist, j, db.refresh[j])
  {
    assert TokenOk(cfg, w.db.users, w.now, j, w.signed[j]);
  }

  lemma RevokeAllKeepsInv(cfg: Config, w: World, u: UserId)
    requires Inv(cfg, w)
    ensures Inv(cfg, w.(db := RevokeAll(w.db, u, w.now)))
  {
    var db := RevokeAll(w.db, u, w.now);
    forall j | j in db.refresh
      ensures RowOk(cfg, w.signed, db.users, w.now, j, db.refresh[j]) && LinkOk(w.hist, j, db.refresh[j])
    {
      RevokedRow(cfg, w, u, j);
    }
    forall j | j in w.signed
      ensures TokenOk(cfg, db.users, w.now, j, w.signed[j])
    {
      assert TokenOk(cfg, w.db.users, w.now, j, w.signed[j]);
    }
  }

  lemma RevokeOneKeepsInv(cfg: Config, w: World, k: Jti)
    requires Inv(cfg, w)
    ensures Inv(cfg, w.(db := RevokeOne(w.db, k, w.now)))
  {
    var w' := w.(db := RevokeOne(w.db, k, w.now));
    forall j | j in w'.db.refresh
      ensures RowOk(cfg, w'.signed, w'.db.users, w'.now, j, w'.db.refresh[j]) && LinkOk(w'.hist, j, w'.db.refresh[j])
    {
      assert RowOk(cfg, w.signed, w.db.users, w.now, j, w.db.refresh[j]) && LinkOk(w.hist, j, w.db.refresh[j]);
      assert TokenOk(cfg, w.db.users, w.now, j, w.signed[j]);
    }
  }

  /** What touches no refresh row except by deleting it, and no version, keeps the sessions. */
  lemma SameSessionsKeepInv(cfg: Config, w: World, w': World)
    requires Inv(cfg, w) && ResetsOk(w')
    requires w'.signed == w.signed && w'.hist.(issued := {}) == w.hist.(issued := {}) && w.now <= w'.now
    requires forall j | j in w'.db.refresh :: j in w.db.refresh && w'.db.refresh[j] == w.db.refresh[j]
    requires forall u | u in w.db.users ::
               u in w'.db.users && w'.db.users[u].tokenVersion == w.db.users[u].tokenVersion
    ensures Inv(cfg, w')
  {
    forall j | j in w'.db.refresh
      ensures RowOk(cfg, w'.signed, w'.db.users, w'.now, j, w'.db.refresh[j]) && LinkOk(w'.hist, j, w'.db.refresh[j])
    {
      assert RowOk(cfg, w.signed, w.db.users, w.now, j, w.db.refresh[j]) && LinkOk(w.hist, j, w.db.refresh[j]);
    }
    forall j | j in w'.signed
      ensures TokenOk(cfg, w'.db.users, w'.now, j, w'.signed[j])
    {
      assert TokenOk(cfg, w.db.users, w.now, j, w.signed[j]);
    }
    forall j | j in w'.hist.origin
      ensures PlaceOk(w'.signed, w'.hist, j)
    {
      assert PlaceOk(w.signed, w.hist, j);
    }
    forall l: nat | l < |w'.hist.heads|
      ensures HeadOk(w'.hist, l)
    {
      assert HeadOk(w.hist, l);
    }
  }

  lemma BeginKeepsChains(signed: Signed, h: History, t: Token, a: Token)
    requires ChainsOk(signed, h) && PlacesDiffer(h)
    requires t.jti !in signed && a.jti !in signed && t.jti != a.jti
    requires t.kind == Refresh && a.kind == Access
    ensures ChainsOk(signed[a.jti := a][t.jti := t], Begin(h, t.jti)) && PlacesDiffer(Begin(h, t.jti))
  {
    var signed', h' := signed[a.jti := a][t.jti := t], Begin(h, t.jti);
    forall j | j in h'.origin
      ensures PlaceOk(signed', h', j)
    {
      assert j != t.jti ==> PlaceOk(signed, h, j);
    }
    forall l: nat | l < |h'.heads|
      ensures HeadOk(h', l)
    {
      assert l < |h.heads| ==> HeadOk(h, l);
    }
    forall j, k | j in h'.origin && k in h'.origin && j != k
      ensures h'.origin[j] != h'.origin[k]
    {
      assert j != t.jti ==> PlaceOk(signed, h, j);
      assert k != t.jti ==> PlaceOk(signed, h, k);
    }
  }

  lemma SucceedKeepsPlaces(signed: Signed, h: History, from: Jti, jti: Jti)
    requires ChainsOk(signed, h) && PlacesDiffer(h)
    requires from in h.origin && h.origin[from].login < |h.heads| && from == h.heads[h.origin[from].login]
    ensures PlacesDiffer(Succeed(h, from, jti))
  {
    var h' := Succeed(h, from, jti);
    forall j, k | j in h'.origin && k in h'.origin && j != k
      ensures h'.origin[j] != h'.origin[k]
    {
      assert j != jti ==> PlaceOk(signed, h, j);
      assert k != jti ==> PlaceOk(signed, h, k);
    }
  }

  lemma SucceedKeepsChains(signed: Signed, h: History, from: Jti, t: Token, a: Token)
    requires ChainsOk(signed, h)
    requires from in h.origin && h.origin[from].login < |h.heads| && from == h.heads[h.origin[from].login]
    requires t.jti !in signed && a.jti !in signed && t.jti != a.jti
    requires t.kind == Refresh && a.kind == Access && from in signed && t.sub == signed[from].sub
    ensures ChainsOk(signed[t.jti := t][a.jti := a], Succeed(h, from, t.jti))
  {
    var signed', h' := signed[t.jti := t][a.jti := a], Succeed(h, from, t.jti);
    forall j | j in h'.origin
      ensures PlaceOk(signed', h', j)
    {
      assert PlaceOk(signed, h, from);
      assert j != t.jti ==> PlaceOk(signed, h, j);
    }
    forall l: nat | l < |h'.heads|
      ensures HeadOk(h', l)
    {
      assert HeadOk(h, l);
      assert PlaceOk(signed, h, h.heads[l]);
    }
  }

  lemma IssuePairKeepsInv(cfg: Config, w: World, u: UserId, jti: Jti, accessJti: Jti)
    requires Inv(cfg, w) && u in w.db.users
    requires jti !in w.signed && accessJti !in w.signed && jti != accessJti
    ensures Inv(cfg, IssuePair(cfg, w, u, jti, accessJti).0)
  {
    var (w', v) := IssuePair(cfg, w, u, jti, accessJti);
    BeginKeepsChains(w.signed, w.hist, v.refresh, v.access);
    NewTokensKeepRows(cfg, w, w', v.refresh, v.access);
    BeginKeepsLinks(w, FreshRow(v.refresh), jti);
  }

  lemma BeginKeepsLinks(w: World, r: RefreshRow, jti: Jti)
    requires ChainsOk(w.signed, w.hist) && LinksOk(w.hist, w.db.refresh) && jti !in w.signed && r.replacedBy.None?
    ensures LinksOk(Begin(w.hist, jti), w.db.refresh[jti := r])
  {
    var rows := w.db.refresh[jti := r];
    forall j | j in rows
      ensures LinkOk(Begin(w.hist, jti), j, rows[j])
    {
      if j != jti {
        assert LinkOk(w.hist, j, w.db.refresh[j]);
        assert PlaceOk(w.signed, w.hist, j);
        var next := w.db.refresh[j].replacedBy;
        assert next.Some? ==> PlaceOk(w.signed, w.hist, next.value);
      }
    }
  }

  /** Signing two fresh tokens at the user's version and storing the refresh row. */
  lemma NewTokensKeepRows(cfg: Config, w: World, w': World, t: Token, a: Token)
    requires TokensOk(cfg, w) && RowsOk(cfg, w)
    requires t.jti !in w.signed && a.jti !in w.signed && t.jti != a.jti
    requires w'.now == w.now && w'.db.users == w.db.users
    requires w'.signed == w.signed[t.jti := t][a.jti := a]
    requires TokenOk(cfg, w.db.users, w.now, t.jti, t) && TokenOk(cfg, w.db.users, w.now, a.jti, a)
    requires t.kind == Refresh && t.tv == w.db.users[t.sub].tokenVersion
    requires t.jti in w'.db.refresh && w'.db.refresh[t.jti] == FreshRow(t)
    requires forall j | j in w'.db.refresh && j != t.jti ::
               && j in w.db.refresh
               && RowOk(cfg, w.signed, w.db.users, w.now, j, w'.db.refresh[j])
    ensures TokensOk(cfg, w') && RowsOk(cfg, w')
  {
    forall j | j in w'.signed
      ensures TokenOk(cfg, w'.db.users, w'.now, j, w'.signed[j])
    {
      assert j in w.signed ==> TokenOk(cfg, w.db.users, w.now, j, w.signed[j]);
    }
  }

  /** The token of an unrevoked row is the head of its chain. */
  lemma UnrevokedIsHead(cfg: Config, w: World, j: Jti)
    requires Inv(cfg, w) && j in w.db.refresh && w.db.refresh[j].revokedAt.None?
    ensures j in w.hist.origin && w.hist.origin[j].login < |w.hist.heads| && j == w.hist.heads[w.hist.origin[j].login]
  {
    assert LinkOk(w.hist, j, w.db.refresh[j]);
  }

  lemma SucceedKeepsLink(signed: Signed, h: History, from: Jti, jti: Jti, j: Jti, r: RefreshRow)
    requires ChainsOk(signed, h) && jti !in signed
    requires from in h.origin && h.origin[from].login < |h.heads| && from == h.heads[h.origin[from].login]
    requires LinkOk(h, j, r) && j != from
    ensures LinkOk(Succeed(h, from, jti), j, r)
  {
    assert PlaceOk(signed, h, j);
    assert r.replacedBy.Some? ==> PlaceOk(signed, h, r.replacedBy.value);
  }

  lemma SucceedKeepsLinks(w: World, from: Jti, closed: RefreshRow, jti: Jti, row: RefreshRow)
    requires ChainsOk(w.signed, w.hist) && LinksOk(w.hist, w.db.refresh) && jti !in w.signed
    requires from in w.db.refresh && from == w.hist.heads[w.hist.origin[from].login]
    requires closed.revokedAt.Some? && closed.replacedBy == Some(jti) && row.replacedBy.None?
    ensures LinksOk(Succeed(w.hist, from, jti), w.db.refresh[from := closed][jti := row])
  {
    var rows := w.db.refresh[from := closed][jti := row];
    forall j | j in rows
      ensures LinkOk(Succeed(w.hist, from, jti), j, rows[j])
    {
      if j != from && j != jti { SucceedKeepsLink(w.signed, w.hist, from, jti, j, w.db.refresh[j]); }
    }
  }

  lemma RotatedKeepsRows(cfg: Config, w: World, t: Token, jti: Jti, accessJti: Jti)
    requires TokensOk(cfg, w) && RowsOk(cfg, w)
    requires jti !in w.signed && accessJti !in w.signed && jti != accessJti
    requires Rotate(cfg, w, t, jti, accessJti).1.Rotated?
    ensures TokensOk(cfg, Rotate(cfg, w, t, jti, accessJti).0) && RowsOk(cfg, Rotate(cfg, w, t, jti, accessJti).0)
  {
    var (w', v) := Rotate(cfg, w, t, jti, accessJti);
    assert RowOk(cfg, w.signed, w.db.users, w.now, t.jti, w.db.refresh[t.jti]);
    assert TokenOk(cfg, w.db.users, w.now, t.jti, t);
    NewTokensKeepRows(cfg, w, w', v.refresh, v.access);
  }

  lemma RotatedKeepsInv(cfg: Config, w: World, t: Token, jti: Jti, accessJti: Jti)
    requires Inv(cfg, w)
    requires jti !in w.signed && accessJti !in w.signed && jti != accessJti
    requires Rotate(cfg, w, t, jti, accessJti).1.Rotated?
    ensures Inv(cfg, Rotate(cfg, w, t, jti, accessJti).0)
  {
    var (w', v) := Rotate(cfg, w, t, jti, accessJti);
    RotatedKeepsRows(cfg, w, t, jti, accessJti);
    UnrevokedIsHead(cfg, w, t.jti);
    assert v.refresh.sub == w.signed[t.jti].sub by {
      assert RowOk(cfg, w.signed, w.db.users, w.now, t.jti, w.db.refresh[t.jti]);
    }
    SucceedKeepsChains(w.signed, w.hist, t.jti, v.refresh, v.access);
    SucceedKeepsPlaces(w.signed, w.hist, t.jti, jti);
    SucceedKeepsLinks(w, t.jti, w'.db.refresh[t.jti], jti, FreshRow(v.refresh));
  }

  lemma RotateKeepsInv(cfg: Config, w: World, t: Token, jti: Jti, accessJti: Jti)
    requires Inv(cfg, w)
    requires jti !in w.signed && accessJti !in w.signed && jti != accessJti
    ensures Inv(cfg, Rotate(cfg, w, t, jti, accessJti).0)
  {
    var v := Rotate(cfg, w, t, jti, accessJti).1;
    if v == Rejected(Reused) {
      RevokeAllKeepsInv(cfg, w, w.db.refresh[t.jti].user);
    } else if v.Rotated? {
      RotatedKeepsInv(cfg, w, t, jti, accessJti);
    }
  }

  lemma PasswordChangeKeepsInv(cfg: Config, w: World, u: UserId, hash: PasswordHash)
    requires Inv(cfg, w) && u in w.db.users
    ensures Inv(cfg, PasswordChange(w, u, hash))
  {
    var w' := w.(db := SetPassword(w.db, u, hash));
    SameSessionsKeepInv(cfg, w, w');
    RevokeAllKeepsInv(cfg, w', u);
  }

  lemma LogoutKeepsInv(cfg: Config, w: World, u: UserId, t: Token)
    requires Inv(cfg, w)
    ensures Inv(cfg, LogoutOf(w, u, t))
  {
    RevokeOneKeepsInv(cfg, w, t.jti);
    RevokeAllKeepsInv(cfg, if Decodes(w, t) then w.(db := RevokeOne(w.db, t.jti, w.now)) else w, u);
  }

  lemma ConsumeResetKeepsInv(cfg: Config, w: World, d: Digest, hash: PasswordHash)
    requires Inv(cfg, w)
    ensures Inv(cfg, ConsumeReset(w, d, hash))
  {
    if ResetAccepted(w, d) {
      var row := w.db.resets[d];
      var mid := w.(db := w.db.(resets := w.db.resets[d := row.(usedAt := Some(w.now))]));
      SameSessionsKeepInv(cfg, w, mid);
      PasswordChangeKeepsInv(cfg, mid, row.user, hash);
    }
  }

  lemma ForgotPasswordKeepsResets(cfg: Config, w: World, u: UserId, d: Digest)
    requires ResetsOk(w) && d !in w.hist.issued
    ensures ResetsOk(CreateReset(cfg, w, u, d))
  {
  }

  lemma StepKeepsInv(cfg: Config, w: World, e: Event)
    requires Inv(cfg, w) && Enabled(w, e)
    ensures Inv(cfg, Step(cfg, w, e).0)
  {
    var w' := Step(cfg, w, e).0;
    match e
    case CreateUser(_, _) => SameSessionsKeepInv(cfg, w, w');
    case SetActive(_, _) => SameSessionsKeepInv(cfg, w, w');
    case Login(u, _, jti, accessJti) =>
      if u in w.db.users { IssuePairKeepsInv(cfg, w, u, jti, accessJti); }
    case Renew(t, jti, accessJti) => RotateKeepsInv(cfg, w, t, jti, accessJti);
    case Authenticate(_) =>
    case Logout(access, t) =>
      if Resolve(w, access).Some? { LogoutKeepsInv(cfg, w, Resolve(w, access).value, t); }
    case ChangePassword(access, _, hash) =>
      if Resolve(w, access).Some? { PasswordChangeKeepsInv(cfg, w, Resolve(w, access).value, hash); }
    case AdminSetPassword(u, hash) =>
      if u in w.db.users { PasswordChangeKeepsInv(cfg, w, u, hash); }
    case ForgotPassword(u, d) =>
      ForgotPasswordKeepsResets(cfg, w, u, d);
      SameSessionsKeepInv(cfg, w, w');
    case ResetPassword(d, hash) => ConsumeResetKeepsInv(cfg, w, d, hash);
    case Cleanup(_) => SameSessionsKeepInv(cfg, w, w');
    case Elapse(_) => SameSessionsKeepInv(cfg, w, w');
  }

  lemma {:induction false} RunKeepsInv(cfg: Config, w: World, es: seq<Event>)
    requires Inv(cfg, w) && Possible(cfg, w, es)
    ensures Inv(cfg, Run(cfg, w, es))
    decreases |es|
  {
    if es != [] {
      StepKeepsInv(cfg, w, es[0]);
      RunKeepsInv(cfg, Step(cfg, w, es[0]).0, es[1..]);
    }
  }
}
