/** What every event does to the users and how long tokens live, exactly, over every run: what an event
    is for happens, and nothing it is not for. */
module SessionEffects {
  import opened Prelude
  import opened SessionLedger
  import opened SessionInvariant
  import opened SessionTheorems

  /* ---------- logins ---------- */

  /** A login answers with a pair exactly for a known, active user whose credentials were accepted;
      refused, it leaves everything as it was. */
  lemma LoginAnswersExactly(cfg: Config, w: World, u: UserId, admitted: bool, jti: Jti, accessJti: Jti)
    ensures var (w', r) := Step(cfg, w, Login(u, admitted, jti, accessJti));
      && (r.Pair? <==> u in w.db.users && admitted && w.db.users[u].active)
      && (!r.Pair? ==> w' == w && r == Refused)
  {
  }

  /** Neither kind of token does the work of the other, and none of another version does any, in whatever state. */
  lemma KindsDoNotMix(cfg: Config, w: World, t: Token, jti: Jti, accessJti: Jti)
    ensures t.kind == Refresh ==> Resolve(w, t).None?
    ensures t.kind == Access ==> Rotate(cfg, w, t, jti, accessJti) == (w, Rejected(BadToken))
    ensures t.sub in w.db.users && t.tv != w.db.users[t.sub].tokenVersion ==> Resolve(w, t).None?
    ensures Rotate(cfg, w, t, jti, accessJti).1.Rotated? ==>
              var u := w.db.refresh[t.jti].user;
              u in w.db.users && w.db.users[u].active && t.tv == w.db.users[u].tokenVersion
  {
  }

  /* ---------- users ---------- */

  /** The password an event sets for a user. */
  function NewPassword(w: World, e: Event, u: UserId): Option<PasswordHash> {
    match e
    case ChangePassword(access, accepted, hash) =>
      if accepted && Resolve(w, access) == Some(u) then Some(hash) else None
    case AdminSetPassword(v, hash) => if v == u then Some(hash) else None
    case ResetPassword(d, hash) => if ResetAccepted(w, d) && w.db.resets[d].user == u then Some(hash) else None
    case _ => None
  }

  /** Of a user only these change: the password by the events that set it, the activation by an
      administrator, and the token version by one for every event that ends sessions. */
  lemma UserAfter(cfg: Config, w: World, e: Event, u: UserId)
    requires u in w.db.users && Enabled(w, e)
    ensures var was, users := w.db.users[u], Step(cfg, w, e).0.db.users;
      && u in users
      && users[u].password == (match NewPassword(w, e, u) case Some(hash) => hash case None => was.password)
      && users[u].active == (if e.SetActive? && e.user == u then e.active else was.active)
      && users[u].tokenVersion == was.tokenVersion + if EndsSessions(w, e, u) then 1 else 0
  {
  }

  lemma UsersOnlyByCreation(cfg: Config, w: World, e: Event, u: UserId)
    requires u !in w.db.users
    ensures u in Step(cfg, w, e).0.db.users <==> e.CreateUser? && e.user == u
    ensures e.CreateUser? && e.user == u ==> Step(cfg, w, e).0.db.users[u] == User(true, 0, e.hash)
  {
  }

  /** No event of the run sets the user's password. */
  predicate PasswordUntouched(cfg: Config, w: World, es: seq<Event>, u: UserId)
    decreases |es|
  {
    es == [] || (NewPassword(w, es[0], u).None? && PasswordUntouched(cfg, Step(cfg, w, es[0]).0, es[1..], u))
  }

  /** A password stays the one that was set last. */
  lemma {:induction false} PasswordStays(cfg: Config, w: World, es: seq<Event>, u: UserId)
    requires u in w.db.users && Possible(cfg, w, es) && PasswordUntouched(cfg, w, es, u)
    ensures u in Run(cfg, w, es).db.users && Run(cfg, w, es).db.users[u].password == w.db.users[u].password
    decreases |es|
  {
    if es != [] {
      UserAfter(cfg, w, es[0], u);
      PasswordStays(cfg, Step(cfg, w, es[0]).0, es[1..], u);
    }
  }

  lemma SettingTakesEffect(cfg: Config, w: World, e: Event, es: seq<Event>, u: UserId)
    requires u in w.db.users && Enabled(w, e) && NewPassword(w, e, u).Some?
    requires Possible(cfg, Step(cfg, w, e).0, es) && PasswordUntouched(cfg, Step(cfg, w, e).0, es, u)
    ensures var users := Run(cfg, Step(cfg, w, e).0, es).db.users;
      u in users && Some(users[u].password) == NewPassword(w, e, u)
  {
    UserAfter(cfg, w, e, u);
    PasswordStays(cfg, Step(cfg, w, e).0, es, u);
  }

  /** How often a run ends the sessions of a user. */
  function Endings(cfg: Config, w: World, es: seq<Event>, u: UserId): nat
    decreases |es|
  {
    if es == [] then 0
    else (if EndsSessions(w, es[0], u) then 1 else 0) + Endings(cfg, Step(cfg, w, es[0]).0, es[1..], u)
  }

  lemma {:induction false} VersionCountsEndings(cfg: Config, w: World, es: seq<Event>, u: UserId)
    requires u in w.db.users && Possible(cfg, w, es)
    ensures u in Run(cfg, w, es).db.users
    ensures Run(cfg, w, es).db.users[u].tokenVersion == w.db.users[u].tokenVersion + Endings(cfg, w, es, u)
    decreases |es|
  {
    if es != [] {
      UserAfter(cfg, w, es[0], u);
      VersionCountsEndings(cfg, Step(cfg, w, es[0]).0, es[1..], u);
    }
  }

  /* ---------- time ---------- */

  lemma ClockAfter(cfg: Config, w: World, e: Event)
    ensures Step(cfg, w, e).0.now == w.now + if e.Elapse? then e.duration else 0
  {
  }

  lemma {:induction false} TimeGoesOn(cfg: Config, w: World, es: seq<Event>)
    ensures Run(cfg, w, es).now >= w.now
    decreases |es|
  {
    if es != [] {
      ClockAfter(cfg, w, es[0]);
      TimeGoesOn(cfg, Step(cfg, w, es[0]).0, es[1..]);
    }
  }

  /* ---------- how long an access token lives ---------- */

  /** An access token that is honoured now is honoured after any run exactly until the second of its
      expiry has passed, while its user is active, and as long as nothing ended the user's sessions. */
  lemma AccessLivesExactly(cfg: Config, w: World, t: Token, es: seq<Event>)
    requires Inv(cfg, w) && Possible(cfg, w, es) && Resolve(w, t).Some?
    ensures var later := Run(cfg, w, es);
      && t.sub in later.db.users
      && (Resolve(later, t) == Some(t.sub) <==>
            && WholeSecond(later.now) <= WholeSecond(t.exp) && later.db.users[t.sub].active
            && Endings(cfg, w, es, t.sub) == 0)
      && (Resolve(later, t).Some? ==> Resolve(later, t) == Some(t.sub))
  {
    RunIsMonotone(cfg, w, es, t.sub, t);
    VersionCountsEndings(cfg, w, es, t.sub);
  }

  /* ---------- how long a refresh token lives ---------- */

  predicate RowLives(w: World, t: Token) {
    t.jti in w.db.refresh && w.db.refresh[t.jti].revokedAt.None?
  }

  /** The events that use this token up: its rotation, and a logout that presents it. */
  predicate Uses(cfg: Config, w: World, e: Event, t: Token) {
    match e
    case Renew(x, jti, accessJti) => x == t && Rotate(cfg, w, t, jti, accessJti).1.Rotated?
    case Logout(access, x) => x == t && Resolve(w, access).Some? && Decodes(w, t)
    case _ => false
  }

  predicate UsedIn(cfg: Config, w: World, es: seq<Event>, t: Token)
    decreases |es|
  {
    es != [] && (Uses(cfg, w, es[0], t) || UsedIn(cfg, Step(cfg, w, es[0]).0, es[1..], t))
  }

  ghost predicate KnownRefresh(w: World, t: Token) {
    && t.jti in w.signed && w.signed[t.jti] == t && t.kind == Refresh
    && (t.jti in w.db.refresh ==> w.db.refresh[t.jti].user == t.sub && w.db.refresh[t.jti].expiresAt == t.exp)
  }

  lemma KnowRefresh(cfg: Config, w: World, t: Token)
    requires Inv(cfg, w) && t.jti in w.signed && w.signed[t.jti] == t && t.kind == Refresh
    ensures KnownRefresh(w, t)
  {
    if t.jti in w.db.refresh {
      assert RowOk(cfg, w.signed, w.db.users, w.now, t.jti, w.db.refresh[t.jti]);
    }
  }

  /** One event takes a living row exactly when it uses the token or ends the sessions of its user,
      unless the token has expired. */
  lemma RowAfter(cfg: Config, w: World, e: Event, t: Token)
    requires KnownRefresh(w, t) && Enabled(w, e)
    ensures var w' := Step(cfg, w, e).0;
      && (RowLives(w', t) ==> RowLives(w, t) && !Uses(cfg, w, e, t) && !EndsSessions(w, e, t.sub))
      && (RowLives(w, t) && !Uses(cfg, w, e, t) && !EndsSessions(w, e, t.sub) && t.exp > w'.now ==> RowLives(w', t))
  {
  }

  lemma {:induction false} RowLivesExactly(cfg: Config, w: World, es: seq<Event>, t: Token)
    requires Inv(cfg, w) && Possible(cfg, w, es) && t.jti in w.signed && w.signed[t.jti] == t && t.kind == Refresh
    requires Run(cfg, w, es).now < t.exp && t.sub in w.db.users
    ensures RowLives(Run(cfg, w, es), t) <==>
              RowLives(w, t) && !UsedIn(cfg, w, es, t) && Endings(cfg, w, es, t.sub) == 0
    decreases |es|
  {
    if es != [] {
      var w' := Step(cfg, w, es[0]).0;
      KnowRefresh(cfg, w, t);
      RowAfter(cfg, w, es[0], t);
      TimeGoesOn(cfg, w', es[1..]);
      StepIsMonotone(cfg, w, es[0], t.sub, t);
      StepKeepsInv(cfg, w, es[0]);
      RowLivesExactly(cfg, w', es[1..], t);
    }
  }

  /** A refresh token that rotates now rotates after any run exactly until its expiry, while its user is
      active, if it was neither rotated nor presented at a logout and nothing ended the user's sessions. */
  lemma RefreshLivesExactly(cfg: Config, w: World, t: Token, es: seq<Event>, jti: Jti, accessJti: Jti)
    requires Inv(cfg, w) && Possible(cfg, w, es) && Rotate(cfg, w, t, jti, accessJti).1.Rotated?
    ensures var later := Run(cfg, w, es);
      && t.sub in later.db.users
      && (Rotate(cfg, later, t, jti, accessJti).1.Rotated? <==>
            && later.now < t.exp && later.db.users[t.sub].active
            && !UsedIn(cfg, w, es, t) && Endings(cfg, w, es, t.sub) == 0)
  {
    var later := Run(cfg, w, es);
    RotatesExactly(cfg, w, t, jti, accessJti);
    assert t.sub in w.db.users by {
      assert RowOk(cfg, w.signed, w.db.users, w.now, t.jti, w.db.refresh[t.jti]);
    }
    RunIsMonotone(cfg, w, es, t.sub, t);
    RunKeepsInv(cfg, w, es);
    RotatesExactly(cfg, later, t, jti, accessJti);
    if later.now < t.exp {
      RowLivesExactly(cfg, w, es, t);
    }
  }

  /* ---------- how long a reset token lives ---------- */

  /** The events that take a reset token away: its use, and a newer one for its active user. */
  predicate Voids(w: World, e: Event, d: Digest, u: UserId) {
    || (e.ResetPassword? && e.digest == d && ResetAccepted(w, d))
    || (e.ForgotPassword? && e.user == u && u in w.db.users && w.db.users[u].active)
  }

  predicate VoidedIn(cfg: Config, w: World, es: seq<Event>, d: Digest, u: UserId)
    decreases |es|
  {
    es != [] && (Voids(w, es[0], d, u) || VoidedIn(cfg, Step(cfg, w, es[0]).0, es[1..], d, u))
  }

  /** Asking for a reset token concerns no other user's, and none that was used. */
  lemma OtherResetsStay(cfg: Config, w: World, u: UserId, d: Digest, c: Digest)
    requires c in w.db.resets && (w.db.resets[c].user != u || w.db.resets[c].usedAt.Some?) && c != d
    ensures var resets := Step(cfg, w, ForgotPassword(u, d)).0.db.resets;
      c in resets && resets[c] == w.db.resets[c]
  {
  }

  /** One event leaves an unexpired, unused reset row as it is, unless it takes the token away. */
  lemma ResetAfter(cfg: Config, w: World, e: Event, d: Digest)
    requires d in w.hist.issued && d in w.db.resets && Enabled(w, e)
    requires Usable(w.db.resets[d], w.now) && w.db.resets[d].expiresAt > Step(cfg, w, e).0.now
    ensures var w' := Step(cfg, w, e).0;
      if Voids(w, e, d, w.db.resets[d].user) then Spent(w', d)
      else d in w'.db.resets && w'.db.resets[d] == w.db.resets[d]
  {
  }

  lemma {:induction false} ResetRowLivesExactly(cfg: Config, w: World, es: seq<Event>, d: Digest)
    requires Possible(cfg, w, es) && d in w.hist.issued && d in w.db.resets && Usable(w.db.resets[d], w.now)
    requires w.db.resets[d].expiresAt > Run(cfg, w, es).now
    ensures var later := Run(cfg, w, es);
      if VoidedIn(cfg, w, es, d, w.db.resets[d].user) then Spent(later, d)
      else d in later.db.resets && later.db.resets[d] == w.db.resets[d]
    decreases |es|
  {
    if es != [] {
      var w' := Step(cfg, w, es[0]).0;
      TimeGoesOn(cfg, w', es[1..]);
      ResetAfter(cfg, w, es[0], d);
      IssuedStays(cfg, w, es[0], d);
      if Voids(w, es[0], d, w.db.resets[d].user) {
        SpentForever(cfg, w', es[1..], d);
      } else {
        ResetRowLivesExactly(cfg, w', es[1..], d);
      }
    }
  }

  lemma IssuedStays(cfg: Config, w: World, e: Event, d: Digest)
    requires d in w.hist.issued
    ensures d in Step(cfg, w, e).0.hist.issued
  {
  }

  /** A reset token that is accepted now is accepted after any run exactly until its expiry, while its user
      is active, if it was not used and its user asked for no other one. */
  lemma ResetLivesExactly(cfg: Config, w: World, d: Digest, es: seq<Event>)
    requires Inv(cfg, w) && Possible(cfg, w, es) && ResetAccepted(w, d)
    ensures var later, row := Run(cfg, w, es), w.db.resets[d];
      && row.user in later.db.users
      && (ResetAccepted(later, d) <==>
            && later.now < row.expiresAt && later.db.users[row.user].active
            && !VoidedIn(cfg, w, es, d, row.user))
  {
    VersionCountsEndings(cfg, w, es, w.db.resets[d].user);
    if Run(cfg, w, es).now < w.db.resets[d].expiresAt {
      ResetRowLivesExactly(cfg, w, es, d);
    } else {
      ResetNeverGains(cfg, w, es, d);
    }
  }

  lemma {:induction false} ResetNeverGains(cfg: Config, w: World, es: seq<Event>, d: Digest)
    requires Possible(cfg, w, es) && d in w.hist.issued && d in w.db.resets && Usable(w.db.resets[d], w.now)
    requires w.db.resets[d].expiresAt <= Run(cfg, w, es).now
    ensures Spent(Run(cfg, w, es), d)
    decreases |es|
  {
    if es != [] {
      var w' := Step(cfg, w, es[0]).0;
      TimeGoesOn(cfg, w', es[1..]);
      IssuedStays(cfg, w, es[0], d);
      if w.db.resets[d].expiresAt > w'.now {
        ResetAfter(cfg, w, es[0], d);
      } else {
        assert es[0].Elapse?;
      }
      if d in w'.db.resets && Usable(w'.db.resets[d], w'.now) {
        ResetNeverGains(cfg, w', es[1..], d);
      } else {
        SpentForever(cfg, w', es[1..], d);
      }
    }
  }

  /* ---------- what the nightly task deletes, and when ---------- */

  /** A refresh token that expired longer ago than the retention has no row afterwards. */
  lemma ExpiredTokensAreDeleted(cfg: Config, w: World, days: nat, t: Token)
    requires Inv(cfg, w) && t.jti in w.signed && w.signed[t.jti] == t && t.kind == Refresh
    requires t.exp < w.now - Days(days)
    ensures t.jti !in CleanUp(w, days).db.refresh
  {
    KnowRefresh(cfg, w, t);
  }

  /** Revoked no later than a given time, or without a row. */
  predicate RevokedBy(w: World, j: Jti, at: Time) {
    j in w.db.refresh ==> w.db.refresh[j].revokedAt.Some? && w.db.refresh[j].revokedAt.value <= at
  }

  lemma {:induction false} RevokedByStays(cfg: Config, w: World, es: seq<Event>, j: Jti, at: Time)
    requires Possible(cfg, w, es) && j in w.signed && RevokedBy(w, j, at)
    ensures RevokedBy(Run(cfg, w, es), j, at)
    decreases |es|
  {
    if es != [] {
      RevokedByStep(cfg, w, es[0], j, at);
      RevokedByStays(cfg, Step(cfg, w, es[0]).0, es[1..], j, at);
    }
  }

  lemma RevokedByStep(cfg: Config, w: World, e: Event, j: Jti, at: Time)
    requires Enabled(w, e) && j in w.signed && RevokedBy(w, j, at)
    ensures j in Step(cfg, w, e).0.signed && RevokedBy(Step(cfg, w, e).0, j, at)
  {
  }

  /** Once the retention has passed since a user's sessions were ended, no row of theirs is left. */
  lemma EndedSessionsAreDeleted(cfg: Config, w: World, e: Event, es: seq<Event>, days: nat, t: Token)
    requires Inv(cfg, w) && t.jti in w.signed && w.signed[t.jti] == t && t.kind == Refresh
    requires Enabled(w, e) && EndsSessions(w, e, t.sub) && Possible(cfg, Step(cfg, w, e).0, es)
    requires Run(cfg, Step(cfg, w, e).0, es).now > w.now + Days(days)
    ensures t.jti !in CleanUp(Run(cfg, Step(cfg, w, e).0, es), days).db.refresh
  {
    var w' := Step(cfg, w, e).0;
    KnowRefresh(cfg, w, t);
    assert t.sub in w.db.users by { assert TokenOk(cfg, w.db.users, w.now, t.jti, t); }
    assert RevokedRowsAreOld(w) by { RevokedInThePast(cfg, w); }
    EndingRevokes(cfg, w, e, t);
    StepIsMonotone(cfg, w, e, t.sub, t);
    RevokedByStays(cfg, w', es, t.jti, w.now);
  }

  predicate RevokedRowsAreOld(w: World) {
    forall j | j in w.db.refresh && w.db.refresh[j].revokedAt.Some? :: w.db.refresh[j].revokedAt.value <= w.now
  }

  lemma RevokedInThePast(cfg: Config, w: World)
    requires Inv(cfg, w)
    ensures RevokedRowsAreOld(w)
  {
    forall j | j in w.db.refresh && w.db.refresh[j].revokedAt.Some?
      ensures w.db.refresh[j].revokedAt.value <= w.now
    {
      assert RowOk(cfg, w.signed, w.db.users, w.now, j, w.db.refresh[j]);
    }
  }

  lemma EndingRevokes(cfg: Config, w: World, e: Event, t: Token)
    requires KnownRefresh(w, t) && Enabled(w, e) && EndsSessions(w, e, t.sub) && RevokedRowsAreOld(w)
    ensures RevokedBy(Step(cfg, w, e).0, t.jti, w.now)
  {
  }

  /** A used reset token: used no later than a given time, or without a row. */
  predicate UsedBy(w: World, d: Digest, at: Time) {
    && d in w.hist.issued
    && (d in w.db.resets ==> w.db.resets[d].usedAt.Some? && w.db.resets[d].usedAt.value <= at)
  }

  lemma UsedByStep(cfg: Config, w: World, e: Event, d: Digest, at: Time)
    requires Enabled(w, e) && UsedBy(w, d, at)
    ensures UsedBy(Step(cfg, w, e).0, d, at)
  {
  }

  lemma {:induction false} UsedByStays(cfg: Config, w: World, es: seq<Event>, d: Digest, at: Time)
    requires Possible(cfg, w, es) && UsedBy(w, d, at)
    ensures UsedBy(Run(cfg, w, es), d, at)
    decreases |es|
  {
    if es != [] {
      UsedByStep(cfg, w, es[0], d, at);
      UsedByStays(cfg, Step(cfg, w, es[0]).0, es[1..], d, at);
    }
  }

  /** Once the retention has passed since a reset token was used, its row is gone. */
  lemma UsedResetsAreDeleted(cfg: Config, w: World, d: Digest, hash: PasswordHash, es: seq<Event>, days: nat)
    requires d in w.hist.issued && ResetAccepted(w, d)
    requires Possible(cfg, Step(cfg, w, ResetPassword(d, hash)).0, es)
    requires Run(cfg, Step(cfg, w, ResetPassword(d, hash)).0, es).now > w.now + Days(days)
    ensures d !in CleanUp(Run(cfg, Step(cfg, w, ResetPassword(d, hash)).0, es), days).db.resets
  {
    assert UsedBy(Step(cfg, w, ResetPassword(d, hash)).0, d, w.now);
    UsedByStays(cfg, Step(cfg, w, ResetPassword(d, hash)).0, es, d, w.now);
  }

  /** The same of a reset token that was never used: its row goes when the retention has passed since its expiry. */
  lemma ExpiredResetsAreDeleted(w: World, d: Digest, days: nat)
    requires d in w.db.resets && w.db.resets[d].expiresAt < w.now - Days(days)
    ensures d !in CleanUp(w, days).db.resets
  {
  }

  /** Until the retention has passed a row stays, whatever it is of. */
  lemma RowsAreKept(w: World, days: nat, j: Jti, d: Digest)
    ensures var since, db, after := w.now - Days(days), w.db, CleanUp(w, days).db;
      && (j in db.refresh && db.refresh[j].expiresAt >= since
          && (db.refresh[j].revokedAt.Some? ==> db.refresh[j].revokedAt.value >= since) ==>
            j in after.refresh && after.refresh[j] == db.refresh[j])
      && (d in db.resets && db.resets[d].expiresAt >= since
          && (db.resets[d].usedAt.Some? ==> db.resets[d].usedAt.value >= since) ==>
            d in after.resets && after.resets[d] == db.resets[d])
  {
  }

  /* ---------- how long theft is noticed ---------- */

  predicate RevokedSince(w: World, t: Token, since: Time) {
    && t.jti in w.db.refresh && w.db.refresh[t.jti].expiresAt == t.exp
    && w.db.refresh[t.jti].revokedAt.Some? && w.db.refresh[t.jti].revokedAt.value >= since
  }

  /** Every cleanup of the run keeps rows for at least so many days. */
  predicate KeepsFor(es: seq<Event>, days: nat) {
    forall e | e in es :: e.Cleanup? ==> e.retentionDays >= days
  }

  lemma RevokedSinceStep(cfg: Config, w: World, e: Event, t: Token, since: Time, days: nat)
    requires Enabled(w, e) && t.jti in w.signed && RevokedSince(w, t, since)
    requires e.Cleanup? ==> e.retentionDays >= days && w.now <= t.exp && w.now <= since + Days(days)
    ensures RevokedSince(Step(cfg, w, e).0, t, since) && t.jti in Step(cfg, w, e).0.signed
  {
  }

  lemma {:induction false} RevokedSinceStays(cfg: Config, w: World, es: seq<Event>, t: Token, since: Time, days: nat)
    requires Possible(cfg, w, es) && t.jti in w.signed && RevokedSince(w, t, since) && KeepsFor(es, days)
    requires Run(cfg, w, es).now <= t.exp && Run(cfg, w, es).now <= since + Days(days)
    ensures RevokedSince(Run(cfg, w, es), t, since)
    decreases |es|
  {
    if es != [] {
      assert es[0] in es;
      TimeGoesOn(cfg, w, es);
      RevokedSinceStep(cfg, w, es[0], t, since, days);
      RevokedSinceStays(cfg, Step(cfg, w, es[0]).0, es[1..], t, since, days);
    }
  }

  lemma JustRotated(cfg: Config, w: World, t: Token, jti: Jti, accessJti: Jti)
    requires Inv(cfg, w) && Enabled(w, Renew(t, jti, accessJti)) && Rotate(cfg, w, t, jti, accessJti).1.Rotated?
    ensures var w' := Rotate(cfg, w, t, jti, accessJti).0;
      && RevokedSince(w', t, w.now) && t.kind == Refresh
      && t.jti in w'.signed && w'.signed[t.jti] == t && t.sub in w'.db.users
  {
    RotatesExactly(cfg, w, t, jti, accessJti);
    KnowRefresh(cfg, w, t);
    assert TokenOk(cfg, w.db.users, w.now, t.jti, t);
  }

  lemma RevokedIsReused(cfg: Config, w: World, t: Token, since: Time, jti: Jti, accessJti: Jti)
    requires RevokedSince(w, t, since) && t.kind == Refresh
    requires t.jti in w.signed && w.signed[t.jti] == t && w.now <= t.exp
    ensures Rotate(cfg, w, t, jti, accessJti).1 == Rejected(Reused)
  {
  }

  /** A rotated token is taken for a stolen one for as long as it lives and cleanup keeps its row. */
  lemma TheftIsNoticed(cfg: Config, w: World, t: Token, jti: Jti, accessJti: Jti, es: seq<Event>, days: nat,
                       jti': Jti, accessJti': Jti)
    requires Inv(cfg, w) && Enabled(w, Renew(t, jti, accessJti)) && Rotate(cfg, w, t, jti, accessJti).1.Rotated?
    requires Possible(cfg, Rotate(cfg, w, t, jti, accessJti).0, es) && KeepsFor(es, days)
    requires var later := Run(cfg, Rotate(cfg, w, t, jti, accessJti).0, es);
      later.now <= t.exp && later.now <= w.now + Days(days)
    ensures Rotate(cfg, Run(cfg, Rotate(cfg, w, t, jti, accessJti).0, es), t, jti', accessJti').1 == Rejected(Reused)
  {
    var w' := Rotate(cfg, w, t, jti, accessJti).0;
    JustRotated(cfg, w, t, jti, accessJti);
    RotateKeepsInv(cfg, w, t, jti, accessJti);
    RevokedSinceStays(cfg, w', es, t, w.now, days);
    RunIsMonotone(cfg, w', es, t.sub, t);
    RevokedIsReused(cfg, Run(cfg, w', es), t, w.now, jti', accessJti');
  }
}
