/** What holds of the sessions in every reachable state and over every run. */
module SessionTheorems {
  import opened Prelude
  import opened SessionLedger
  import opened SessionInvariant

  /* ---------- rotation chains ---------- */

  /** The row reached by following `replaced_by_jti` n times, as far as rows are still there. */
  function Follow(rows: map<Jti, RefreshRow>, j: Jti, n: nat): Option<Jti>
    decreases n
  {
    if n == 0 then Some(j)
    else if j !in rows || rows[j].replacedBy.None? then None
    else Follow(rows, rows[j].replacedBy.value, n - 1)
  }

  /** Following links stays in the login's chain and moves one place per link. */
  lemma {:induction false} FollowAdvances(h: History, rows: map<Jti, RefreshRow>, j: Jti, n: nat)
    requires LinksOk(h, rows) && j in h.origin && Follow(rows, j, n).Some?
    ensures var k := Follow(rows, j, n).value;
      k in h.origin && h.origin[k] == Origin(h.origin[j].login, h.origin[j].pos + n)
    decreases n
  {
    if n > 0 {
      assert LinkOk(h, j, rows[j]);
      FollowAdvances(h, rows, rows[j].replacedBy.value, n - 1);
    }
  }

  /** No chain of replacements returns to where it started. */
  lemma ChainsAreAcyclic(cfg: Config, w: World, j: Jti, n: nat)
    requires Inv(cfg, w) && j in w.db.refresh && n > 0
    ensures Follow(w.db.refresh, j, n) != Some(j)
  {
    if Follow(w.db.refresh, j, n).Some? {
      assert LinkOk(w.hist, j, w.db.refresh[j]);
      FollowAdvances(w.hist, w.db.refresh, j, n);
    }
  }

  /** Chains do not merge: a token replaces at most one other. */
  lemma ReplacementsAreInjective(cfg: Config, w: World, j: Jti, k: Jti)
    requires Inv(cfg, w) && j in w.db.refresh && k in w.db.refresh
    requires w.db.refresh[j].replacedBy.Some? && w.db.refresh[j].replacedBy == w.db.refresh[k].replacedBy
    ensures j == k
  {
    assert LinkOk(w.hist, j, w.db.refresh[j]) && LinkOk(w.hist, k, w.db.refresh[k]);
  }

  /** Of the rows of one login at most one is unrevoked, and it is the newest. */
  lemma OneUsablePerLogin(cfg: Config, w: World)
    requires Inv(cfg, w)
    ensures w.db.refresh.Keys <= w.hist.origin.Keys
    ensures forall j, k | j in w.db.refresh && k in w.db.refresh && k != j
              && w.hist.origin[k].login == w.hist.origin[j].login && w.db.refresh[j].revokedAt.None? ::
              w.db.refresh[k].revokedAt.Some? && w.hist.origin[k].pos < w.hist.origin[j].pos
  {
    forall j | j in w.db.refresh ensures j in w.hist.origin {
      assert LinkOk(w.hist, j, w.db.refresh[j]);
    }
    forall j, k | j in w.db.refresh && k in w.db.refresh && k != j
        && w.hist.origin[k].login == w.hist.origin[j].login && w.db.refresh[j].revokedAt.None?
      ensures w.db.refresh[k].revokedAt.Some? && w.hist.origin[k].pos < w.hist.origin[j].pos
    {
      assert LinkOk(w.hist, j, w.db.refresh[j]) && LinkOk(w.hist, k, w.db.refresh[k]);
      assert PlaceOk(w.signed, w.hist, k);
    }
  }

  /** The refusal of a token minted before a credential change is never reached:
      the change has revoked its row, so reuse detection answers first. */
  lemma StaleVersionUnreachable(cfg: Config, w: World, t: Token, jti: Jti, accessJti: Jti)
    requires Inv(cfg, w)
    ensures Rotate(cfg, w, t, jti, accessJti).1 != Rejected(StaleVersion)
  {
    if Decodes(w, t) && t.jti in w.db.refresh {
      assert RowOk(cfg, w.signed, w.db.users, w.now, t.jti, w.db.refresh[t.jti]);
    }
  }

  /** In a reachable state a refresh token rotates exactly when it is genuine and unexpired,
      its row is unrevoked and unexpired, and its owner is active. */
  lemma RotatesExactly(cfg: Config, w: World, t: Token, jti: Jti, accessJti: Jti)
    requires Inv(cfg, w)
    ensures Rotate(cfg, w, t, jti, accessJti).1.Rotated? <==>
              && Decodes(w, t) && t.kind == Refresh && t.jti in w.db.refresh
              && w.db.refresh[t.jti].revokedAt.None? && t.exp > w.now && w.db.users[t.sub].active
  {
    StaleVersionUnreachable(cfg, w, t, jti, accessJti);
    if t.jti in w.db.refresh {
      assert RowOk(cfg, w.signed, w.db.users, w.now, t.jti, w.db.refresh[t.jti]);
    }
  }

  /** The theorems above for every state the server can reach. */
  lemma ReachableChains(cfg: Config, es: seq<Event>)
    requires Possible(cfg, INITIAL, es)
    ensures Inv(cfg, Run(cfg, INITIAL, es))
    ensures var w := Run(cfg, INITIAL, es);
      && (forall j, n: nat | j in w.db.refresh && n > 0 :: Follow(w.db.refresh, j, n) != Some(j))
      && (forall t, jti, accessJti :: Rotate(cfg, w, t, jti, accessJti).1 != Rejected(StaleVersion))
  {
    RunKeepsInv(cfg, INITIAL, es);
    var w := Run(cfg, INITIAL, es);
    forall j, n: nat | j in w.db.refresh && n > 0
      ensures Follow(w.db.refresh, j, n) != Some(j)
    {
      ChainsAreAcyclic(cfg, w, j, n);
    }
    forall t, jti, accessJti
      ensures Rotate(cfg, w, t, jti, accessJti).1 != Rejected(StaleVersion)
    {
      StaleVersionUnreachable(cfg, w, t, jti, accessJti);
    }
  }

  /* ---------- what is minted is honoured ---------- */

  /** After some time and nothing else: the access token is honoured through the whole second of its
      expiry, the refresh token up to but not including its expiry. */
  predicate PairLives(
    cfg: Config, w: World, access: Token, refresh: Token, u: UserId, wait: nat, jti: Jti, accessJti: Jti)
  {
    var later := w.(now := w.now + wait);
    && (Resolve(later, access)
        == if WholeSecond(later.now) <= WholeSecond(w.now + Minutes(cfg.accessMinutes)) then Some(u) else None)
    && (Rotate(cfg, later, refresh, jti, accessJti).1.Rotated? <==> wait < Days(cfg.refreshDays))
  }

  lemma MintedPairLives(
    cfg: Config, w: World, u: UserId, access: Token, refresh: Token, wait: nat, jti: Jti, accessJti: Jti)
    requires u in w.db.users && w.db.users[u].active
    requires access.jti in w.signed && w.signed[access.jti] == access && access == MintAccess(cfg, w, u, access.jti)
    requires refresh.jti in w.signed && w.signed[refresh.jti] == refresh
    requires refresh == MintRefresh(cfg, w, u, refresh.jti)
    requires refresh.jti in w.db.refresh && w.db.refresh[refresh.jti] == FreshRow(refresh)
    ensures PairLives(cfg, w, access, refresh, u, wait, jti, accessJti)
  {
    var later := w.(now := w.now + wait);
    assert wait < Days(cfg.refreshDays) ==> Decodes(later, refresh);
  }

  /** A login or a rotation that answers with a pair has handed out a living pair for its user. */
  lemma AnsweredPairLives(cfg: Config, w: World, e: Event, wait: nat, jti: Jti, accessJti: Jti)
    requires Inv(cfg, w) && Enabled(w, e) && Step(cfg, w, e).1.Pair?
    ensures var (w', r) := Step(cfg, w, e);
      && (e.Login? || e.Renew?)
      && PairLives(cfg, w', r.access, r.refresh, if e.Login? then e.user else e.token.sub, wait, jti, accessJti)
  {
    var (w', r) := Step(cfg, w, e);
    if e.Renew? {
      assert RowOk(cfg, w.signed, w.db.users, w.now, e.token.jti, w.db.refresh[e.token.jti]);
      MintedPairLives(cfg, w', e.token.sub, r.access, r.refresh, wait, jti, accessJti);
    } else {
      MintedPairLives(cfg, w', e.user, r.access, r.refresh, wait, jti, accessJti);
    }
  }

  /* ---------- revocation is permanent ---------- */

  /** Versions only grow, and a signed token stays what it is. */
  lemma StepIsMonotone(cfg: Config, w: World, e: Event, u: UserId, t: Token)
    requires Enabled(w, e) && u in w.db.users
    requires t.jti in w.signed && w.signed[t.jti] == t
    ensures var w' := Step(cfg, w, e).0;
      && u in w'.db.users && w'.db.users[u].tokenVersion >= w.db.users[u].tokenVersion
      && t.jti in w'.signed && w'.signed[t.jti] == t
  {
  }

  lemma {:induction false} RunIsMonotone(cfg: Config, w: World, es: seq<Event>, u: UserId, t: Token)
    requires Inv(cfg, w) && Possible(cfg, w, es) && u in w.db.users
    requires t.jti in w.signed && w.signed[t.jti] == t
    ensures var w' := Run(cfg, w, es);
      && u in w'.db.users && w'.db.users[u].tokenVersion >= w.db.users[u].tokenVersion
      && t.jti in w'.signed && w'.signed[t.jti] == t
    decreases |es|
  {
    if es != [] {
      StepIsMonotone(cfg, w, es[0], u, t);
      StepKeepsInv(cfg, w, es[0]);
      RunIsMonotone(cfg, Step(cfg, w, es[0]).0, es[1..], u, t);
    }
  }

  /** A token below its owner's version neither rotates nor authenticates. */
  lemma BelowVersionIsDead(cfg: Config, w: World, t: Token, jti: Jti, accessJti: Jti)
    requires Inv(cfg, w) && t.jti in w.signed && w.signed[t.jti] == t
    requires t.sub in w.db.users && t.tv < w.db.users[t.sub].tokenVersion
    ensures Resolve(w, t).None? && Rotate(cfg, w, t, jti, accessJti).1.Rejected?
  {
    if t.jti in w.db.refresh {
      assert RowOk(cfg, w.signed, w.db.users, w.now, t.jti, w.db.refresh[t.jti]);
    }
  }

  /** After all tokens of a user are revoked, no token signed before is honoured again, ever. */
  lemma RevocationIsPermanent(cfg: Config, w: World, t: Token, es: seq<Event>, jti: Jti, accessJti: Jti)
    requires Inv(cfg, w) && t.jti in w.signed && w.signed[t.jti] == t
    requires Possible(cfg, w.(db := RevokeAll(w.db, t.sub, w.now)), es)
    ensures var later := Run(cfg, w.(db := RevokeAll(w.db, t.sub, w.now)), es);
      Resolve(later, t).None? && Rotate(cfg, later, t, jti, accessJti).1.Rejected?
  {
    assert TokenOk(cfg, w.db.users, w.now, t.jti, t);
    var w' := w.(db := RevokeAll(w.db, t.sub, w.now));
    RevokeAllKeepsInv(cfg, w, t.sub);
    RunIsMonotone(cfg, w', es, t.sub, t);
    RunKeepsInv(cfg, w', es);
    BelowVersionIsDead(cfg, Run(cfg, w', es), t, jti, accessJti);
  }

  /** Every event that ends a user's sessions does so for good: no token signed before it is
      honoured in any continuation. */
  lemma EndedSessionsStayEnded(cfg: Config, w: World, e: Event, t: Token, es: seq<Event>, jti: Jti, accessJti: Jti)
    requires Inv(cfg, w) && t.jti in w.signed && w.signed[t.jti] == t
    requires Enabled(w, e) && EndsSessions(w, e, t.sub) && Possible(cfg, Step(cfg, w, e).0, es)
    ensures var later := Run(cfg, Step(cfg, w, e).0, es);
      Resolve(later, t).None? && Rotate(cfg, later, t, jti, accessJti).1.Rejected?
  {
    var w' := Step(cfg, w, e).0;
    assert TokenOk(cfg, w.db.users, w.now, t.jti, t);
    EndingBumpsVersion(cfg, w, e, t.sub);
    StepIsMonotone(cfg, w, e, t.sub, t);
    StepKeepsInv(cfg, w, e);
    RunIsMonotone(cfg, w', es, t.sub, t);
    RunKeepsInv(cfg, w', es);
    BelowVersionIsDead(cfg, Run(cfg, w', es), t, jti, accessJti);
  }

  lemma EndingBumpsVersion(cfg: Config, w: World, e: Event, u: UserId)
    requires u in w.db.users && EndsSessions(w, e, u)
    ensures var users := Step(cfg, w, e).0.db.users;
      u in users && users[u].tokenVersion == w.db.users[u].tokenVersion + 1
  {
  }

  /** Presenting a rotated or revoked token ends every session of its owner for good;
      every other refused rotation leaves the ledger as it was. */
  lemma ReuseEndsEverySession(cfg: Config, w: World, stolen: Token, t: Token, es: seq<Event>, jti: Jti, accessJti: Jti)
    requires Inv(cfg, w) && t.jti in w.signed && w.signed[t.jti] == t && t.sub == stolen.sub
    ensures var (w', v) := Rotate(cfg, w, stolen, jti, accessJti);
      && (v.Rejected? && v.why != Reused ==> w' == w)
      && (v == Rejected(Reused) <==>
            Decodes(w, stolen) && stolen.kind == Refresh
            && stolen.jti in w.db.refresh && w.db.refresh[stolen.jti].revokedAt.Some?)
      && (v == Rejected(Reused) && Possible(cfg, w', es) ==>
            Resolve(Run(cfg, w', es), t).None? && Rotate(cfg, Run(cfg, w', es), t, jti, accessJti).1.Rejected?)
  {
    var (w', v) := Rotate(cfg, w, stolen, jti, accessJti);
    if v == Rejected(Reused) && Possible(cfg, w', es) {
      assert RowOk(cfg, w.signed, w.db.users, w.now, stolen.jti, w.db.refresh[stolen.jti]);
      RevocationIsPermanent(cfg, w, t, es, jti, accessJti);
    }
  }

  /* ---------- reset tokens ---------- */

  /** An issued digest that can set no password. */
  predicate Spent(w: World, d: Digest) {
    d in w.hist.issued && (d in w.db.resets ==> !Usable(w.db.resets[d], w.now))
  }

  lemma SpentStaysSpent(cfg: Config, w: World, e: Event, d: Digest)
    requires Enabled(w, e) && Spent(w, d)
    ensures Spent(Step(cfg, w, e).0, d)
  {
  }

  lemma {:induction false} SpentForever(cfg: Config, w: World, es: seq<Event>, d: Digest)
    requires Possible(cfg, w, es) && Spent(w, d)
    ensures Spent(Run(cfg, w, es), d) && PasswordsSet(cfg, w, es, d) == 0
    decreases |es|
  {
    if es != [] {
      SpentStaysSpent(cfg, w, es[0], d);
      SpentForever(cfg, Step(cfg, w, es[0]).0, es[1..], d);
    }
  }

  /** How often a run accepts this digest. */
  function PasswordsSet(cfg: Config, w: World, es: seq<Event>, d: Digest): nat
    decreases |es|
  {
    if es == [] then 0 else
      (if es[0].ResetPassword? && es[0].digest == d && ResetAccepted(w, d) then 1 else 0)
      + PasswordsSet(cfg, Step(cfg, w, es[0]).0, es[1..], d)
  }

  /** A reset token sets a password at most once, over any run from any reachable state. */
  lemma {:induction false} ResetIsOneTime(cfg: Config, w: World, es: seq<Event>, d: Digest)
    requires Inv(cfg, w) && Possible(cfg, w, es)
    ensures PasswordsSet(cfg, w, es, d) <= 1
    decreases |es|
  {
    if es != [] {
      var w' := Step(cfg, w, es[0]).0;
      StepKeepsInv(cfg, w, es[0]);
      if es[0].ResetPassword? && es[0].digest == d && ResetAccepted(w, d) {
        assert Spent(w', d);
        SpentForever(cfg, w', es[1..], d);
      } else {
        ResetIsOneTime(cfg, w', es[1..], d);
      }
    }
  }

  /** A reset token just issued is accepted up to its expiry, and then sets the password. */
  lemma NewResetWorks(cfg: Config, w: World, u: UserId, d: Digest, wait: nat, hash: PasswordHash)
    requires u in w.db.users && w.db.users[u].active
    ensures var later := Step(cfg, w, ForgotPassword(u, d)).0.(now := w.now + wait);
      && (ResetAccepted(later, d) <==> wait < Minutes(cfg.resetMinutes))
      && (ResetAccepted(later, d) ==>
            && ConsumeReset(later, d, hash).db.users[u].password == hash
            && EndsSessions(later, ResetPassword(d, hash), u)
            && Spent(ConsumeReset(later, d, hash), d))
  {
  }

  /** Issuing a reset token kills every earlier one of the user for good. */
  lemma NewResetKillsOlder(cfg: Config, w: World, u: UserId, newer: Digest, d: Digest, es: seq<Event>)
    requires Inv(cfg, w) && newer !in w.hist.issued && u in w.db.users && w.db.users[u].active
    requires d in w.db.resets && w.db.resets[d].user == u
    requires Possible(cfg, Step(cfg, w, ForgotPassword(u, newer)).0, es)
    ensures PasswordsSet(cfg, Step(cfg, w, ForgotPassword(u, newer)).0, es, d) == 0
  {
    var w' := Step(cfg, w, ForgotPassword(u, newer)).0;
    assert Spent(w', d);
    SpentForever(cfg, w', es, d);
  }

  /** In every reachable state a user has at most one usable reset token. */
  lemma OneUsableReset(cfg: Config, es: seq<Event>, c: Digest, d: Digest)
    requires Possible(cfg, INITIAL, es)
    ensures var w := Run(cfg, INITIAL, es);
      && c in w.db.resets && d in w.db.resets && w.db.resets[c].user == w.db.resets[d].user
      && Usable(w.db.resets[c], w.now) && Usable(w.db.resets[d], w.now)
      ==> c == d
  {
    RunKeepsInv(cfg, INITIAL, es);
  }
}
