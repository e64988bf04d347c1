/** When the nightly deletion of old token rows can be noticed, and when it cannot. */
module SessionCleanup {
  import opened Prelude
  import opened SessionLedger
  import opened SessionInvariant

  /** A refresh row nobody can present any more: its token no longer decodes. */
  predicate DeadToken(w: World, j: Jti) {
    j in w.signed && WholeSecond(w.signed[j].exp) < WholeSecond(w.now)
  }

  /** `s` is `w` with some rows gone that can never matter again. */
  ghost predicate Thinner(w: World, s: World) {
    && s.db.users == w.db.users && s.signed == w.signed && s.now == w.now && s.hist == w.hist
    && ThinnerRows(w, s) && ThinnerResets(w, s)
  }

  ghost predicate ThinnerRows(w: World, s: World) {
    && (forall j | j in s.db.refresh :: j in w.db.refresh && w.db.refresh[j] == s.db.refresh[j])
    && (forall j | j in w.db.refresh && j !in s.db.refresh :: DeadToken(w, j))
  }

  ghost predicate ThinnerResets(w: World, s: World) {
    && (forall d | d in s.db.resets :: d in w.db.resets && w.db.resets[d] == s.db.resets[d])
    && (forall d | d in w.db.resets && d !in s.db.resets :: !Usable(w.db.resets[d], w.now))
  }

  /** With retention longer than the refresh lifetime only dead rows are deleted. */
  lemma CleanupThins(cfg: Config, w: World, days: nat)
    requires Inv(cfg, w) && days > cfg.refreshDays
    ensures Thinner(w, CleanUp(w, days))
  {
    var s := CleanUp(w, days);
    forall j | j in w.db.refresh && j !in s.db.refresh
      ensures DeadToken(w, j)
    {
      assert RowOk(cfg, w.signed, w.db.users, w.now, j, w.db.refresh[j]);
      assert RefreshPastRetention(w.db.refresh[j], w.now - Days(days));
    }
  }

  /** However short the retention, the task ends nothing that lives: whoever could rotate, use an access
      token or reset a password before it can do so after it, with the same result, and nobody else can. */
  lemma CleanupSparesLive(cfg: Config, w: World, days: nat, t: Token, jti: Jti, accessJti: Jti, d: Digest)
    ensures var v, v' := Rotate(cfg, w, t, jti, accessJti).1, Rotate(cfg, CleanUp(w, days), t, jti, accessJti).1;
      v.Rotated? || v'.Rotated? ==> v' == v
    ensures Resolve(CleanUp(w, days), t) == Resolve(w, t)
    ensures ResetAccepted(CleanUp(w, days), d) <==> ResetAccepted(w, d)
  {
    var s, cutoff := CleanUp(w, days), w.now - Days(days);
    assert cutoff <= w.now;
    if t.jti in w.db.refresh && t.jti !in s.db.refresh {
      assert RefreshPastRetention(w.db.refresh[t.jti], cutoff);
    }
    if d in w.db.resets && d !in s.db.resets {
      assert ResetPastRetention(w.db.resets[d], cutoff);
    }
  }

  /* ---------- a thinner ledger answers alike ---------- */

  lemma RevokeAllThin(w: World, s: World, u: UserId)
    requires Thinner(w, s)
    ensures Thinner(w.(db := RevokeAll(w.db, u, w.now)), s.(db := RevokeAll(s.db, u, s.now)))
  {
  }

  lemma RevokeOneThin(w: World, s: World, j: Jti)
    requires Thinner(w, s)
    ensures Thinner(w.(db := RevokeOne(w.db, j, w.now)), s.(db := RevokeOne(s.db, j, s.now)))
  {
  }

  lemma RotateThin(cfg: Config, w: World, s: World, t: Token, jti: Jti, accessJti: Jti)
    requires Thinner(w, s) && jti !in w.signed && accessJti !in w.signed && jti != accessJti
    ensures Rotate(cfg, w, t, jti, accessJti).1 == Rotate(cfg, s, t, jti, accessJti).1
    ensures Thinner(Rotate(cfg, w, t, jti, accessJti).0, Rotate(cfg, s, t, jti, accessJti).0)
  {
    if Decodes(w, t) && t.jti in s.db.refresh && t.kind == Refresh && w.db.refresh[t.jti].revokedAt.Some? {
      RevokeAllThin(w, s, w.db.refresh[t.jti].user);
    }
  }

  lemma PasswordChangeThin(w: World, s: World, u: UserId, hash: PasswordHash)
    requires Thinner(w, s) && u in w.db.users
    ensures Thinner(PasswordChange(w, u, hash), PasswordChange(s, u, hash))
  {
    RevokeAllThin(w.(db := SetPassword(w.db, u, hash)), s.(db := SetPassword(s.db, u, hash)), u);
  }

  lemma ConsumeResetThin(w: World, s: World, d: Digest, hash: PasswordHash)
    requires Thinner(w, s)
    ensures ResetAccepted(w, d) == ResetAccepted(s, d)
    ensures ResetAccepted(w, d) ==> w.db.resets[d].user == s.db.resets[d].user
    ensures Thinner(ConsumeReset(w, d, hash), ConsumeReset(s, d, hash))
  {
    if ResetAccepted(w, d) {
      var row := w.db.resets[d].(usedAt := Some(w.now));
      PasswordChangeThin(w.(db := w.db.(resets := w.db.resets[d := row])),
                         s.(db := s.db.(resets := s.db.resets[d := row])), row.user, hash);
    }
  }

  lemma CreateResetThin(cfg: Config, w: World, s: World, u: UserId, d: Digest)
    requires Thinner(w, s)
    ensures Thinner(CreateReset(cfg, w, u, d), CreateReset(cfg, s, u, d))
  {
    var w', s' := CreateReset(cfg, w, u, d), CreateReset(cfg, s, u, d);
    assert ThinnerRows(w', s');
    assert ThinnerResets(w', s');
  }

  lemma CleanUpThin(w: World, s: World, days: nat)
    requires Thinner(w, s)
    ensures Thinner(CleanUp(w, days), CleanUp(s, days))
  {
  }

  lemma ElapseThin(w: World, s: World, d: nat)
    requires Thinner(w, s)
    ensures Thinner(w.(now := w.now + d), s.(now := s.now + d))
  {
  }

  lemma IssuePairThin(cfg: Config, w: World, s: World, u: UserId, jti: Jti, accessJti: Jti)
    requires Thinner(w, s) && u in w.db.users
    requires jti !in w.signed && accessJti !in w.signed && jti != accessJti
    ensures IssuePair(cfg, w, u, jti, accessJti).1 == IssuePair(cfg, s, u, jti, accessJti).1
    ensures Thinner(IssuePair(cfg, w, u, jti, accessJti).0, IssuePair(cfg, s, u, jti, accessJti).0)
  {
  }

  lemma LogoutThin(w: World, s: World, u: UserId, t: Token)
    requires Thinner(w, s)
    ensures Thinner(LogoutOf(w, u, t), LogoutOf(s, u, t))
  {
    if Decodes(w, t) {
      RevokeOneThin(w, s, t.jti);
      RevokeAllThin(w.(db := RevokeOne(w.db, t.jti, w.now)), s.(db := RevokeOne(s.db, t.jti, s.now)), u);
    } else {
      RevokeAllThin(w, s, u);
    }
  }

  lemma StepThin(cfg: Config, w: World, s: World, e: Event)
    requires Thinner(w, s) && Enabled(w, e)
    ensures Enabled(s, e) && Step(cfg, w, e).1 == Step(cfg, s, e).1
    ensures Thinner(Step(cfg, w, e).0, Step(cfg, s, e).0)
  {
    match e
    case CreateUser(_, _) =>
    case SetActive(_, _) =>
    case Login(u, _, jti, accessJti) =>
      if u in w.db.users { IssuePairThin(cfg, w, s, u, jti, accessJti); }
    case Renew(t, jti, accessJti) => RotateThin(cfg, w, s, t, jti, accessJti);
    case Authenticate(_) =>
    case Logout(access, t) =>
      if Resolve(w, access).Some? { LogoutThin(w, s, Resolve(w, access).value, t); }
    case ChangePassword(access, _, hash) =>
      if Resolve(w, access).Some? { PasswordChangeThin(w, s, Resolve(w, access).value, hash); }
    case AdminSetPassword(u, hash) =>
      if u in w.db.users { PasswordChangeThin(w, s, u, hash); }
    case ForgotPassword(u, d) => CreateResetThin(cfg, w, s, u, d);
    case ResetPassword(d, hash) => ConsumeResetThin(w, s, d, hash);
    case Cleanup(days) => CleanUpThin(w, s, days);
    case Elapse(d) => ElapseThin(w, s, d);
  }

  lemma {:induction false} RunThin(cfg: Config, w: World, s: World, es: seq<Event>)
    requires Thinner(w, s) && Possible(cfg, w, es)
    ensures Responses(cfg, w, es) == Responses(cfg, s, es)
    decreases |es|
  {
    if es != [] {
      StepThin(cfg, w, s, es[0]);
      RunThin(cfg, Step(cfg, w, es[0]).0, Step(cfg, s, es[0]).0, es[1..]);
    }
  }

  /** Whatever happens before and after, nobody can tell whether the task ran. */
  ghost predicate Unobservable(cfg: Config, days: nat) {
    forall before, after |
      Possible(cfg, INITIAL, before) && Possible(cfg, Run(cfg, INITIAL, before), after) ::
      Responses(cfg, Run(cfg, INITIAL, before), after)
      == Responses(cfg, CleanUp(Run(cfg, INITIAL, before), days), after)
  }

  /** The task is unobservable exactly when it keeps rows for more days than a refresh token lives. */
  lemma UnobservableIff(cfg: Config, days: nat)
    ensures Unobservable(cfg, days) <==> days > cfg.refreshDays
  {
    if days > cfg.refreshDays {
      forall before, after |
        Possible(cfg, INITIAL, before) && Possible(cfg, Run(cfg, INITIAL, before), after)
        ensures Responses(cfg, Run(cfg, INITIAL, before), after)
                == Responses(cfg, CleanUp(Run(cfg, INITIAL, before), days), after)
      {
        var w := Run(cfg, INITIAL, before);
        RunKeepsInv(cfg, INITIAL, before);
        CleanupThins(cfg, w, days);
        RunThin(cfg, w, CleanUp(w, days), after);
      }
    } else {
      ShortRetentionShows(cfg, days);
    }
  }

  /* ---------- the run that tells them apart ---------- */

  lemma RunCons(cfg: Config, w: World, e: Event, es: seq<Event>)
    ensures Run(cfg, w, [e] + es) == Run(cfg, Step(cfg, w, e).0, es)
    ensures Possible(cfg, w, [e] + es) <==> Enabled(w, e) && Possible(cfg, Step(cfg, w, e).0, es)
    ensures Responses(cfg, w, [e] + es) == [Step(cfg, w, e).1] + Responses(cfg, Step(cfg, w, e).0, es)
  {
    assert ([e] + es)[1..] == es;
  }

  function FirstToken(cfg: Config): Token { Token(Refresh, 1, 0, 0, Days(cfg.refreshDays)) }

  function FirstAccess(cfg: Config): Token { Token(Access, 2, 0, 0, Minutes(cfg.accessMinutes)) }

  function LateAccess(cfg: Config, days: nat): Token {
    Token(Access, 4, 0, 1, Days(days) + 1 + Minutes(cfg.accessMinutes))
  }

  /** A user logs in and out, and logs in again just after the first row is past retention. */
  function Before(cfg: Config, days: nat): seq<Event> {
    [CreateUser(0, 0)] + ([Login(0, true, 1, 2)] + ([Logout(FirstAccess(cfg), FirstToken(cfg))]
      + ([Elapse(Days(days) + 1)] + ([Login(0, true, 3, 4)] + []))))
  }

  /** Then the revoked token is presented, and the new session is used. */
  function After(cfg: Config, days: nat): seq<Event> {
    [Renew(FirstToken(cfg), 5, 6)] + ([Authenticate(LateAccess(cfg, days))] + [])
  }

  function LoggedIn(cfg: Config): World {
    Step(cfg, Step(cfg, INITIAL, CreateUser(0, 0)).0, Login(0, true, 1, 2)).0
  }

  function LoggedOut(cfg: Config): World {
    Step(cfg, LoggedIn(cfg), Logout(FirstAccess(cfg), FirstToken(cfg))).0
  }

  lemma LoggedOutState(cfg: Config)
    ensures var w := LoggedOut(cfg);
      && w.now == 0 && w.db.users == map[0 := User(true, 1, 0)]
      && w.db.refresh == map[1 := RefreshRow(0, Days(cfg.refreshDays), Some(0), None)]
      && w.signed == map[2 := FirstAccess(cfg), 1 := FirstToken(cfg)]
  {
    var w := LoggedIn(cfg);
    assert w.db.users == map[0 := User(true, 0, 0)];
    assert w.signed == map[2 := FirstAccess(cfg), 1 := FirstToken(cfg)];
    assert w.db.refresh == map[1 := RefreshRow(0, Days(cfg.refreshDays), None, None)];
    assert Resolve(w, FirstAccess(cfg)) == Some(0);
    assert LoggedOut(cfg).db.users == map[0 := User(true, 1, 0)];
  }

  /** The run of `Before`, event by event. */
  lemma BeforeUnrolled(cfg: Config, w1: World, w4: World, days: nat)
    requires w1 == Step(cfg, INITIAL, CreateUser(0, 0)).0
    requires w4 == Step(cfg, LoggedOut(cfg), Elapse(Days(days) + 1)).0
    ensures Run(cfg, INITIAL, Before(cfg, days)) == Step(cfg, w4, Login(0, true, 3, 4)).0
    ensures Possible(cfg, INITIAL, Before(cfg, days)) <==>
              Enabled(w1, Login(0, true, 1, 2)) && Enabled(w4, Login(0, true, 3, 4))
  {
    var e1, e2, e3 := CreateUser(0, 0), Login(0, true, 1, 2), Logout(FirstAccess(cfg), FirstToken(cfg));
    var e4, e5 := Elapse(Days(days) + 1), Login(0, true, 3, 4);
    RunCons(cfg, w4, e5, []);
    RunCons(cfg, LoggedOut(cfg), e4, [e5] + []);
    RunCons(cfg, LoggedIn(cfg), e3, [e4] + ([e5] + []));
    RunCons(cfg, w1, e2, [e3] + ([e4] + ([e5] + [])));
    RunCons(cfg, INITIAL, e1, [e2] + ([e3] + ([e4] + ([e5] + []))));
  }

  predicate Replayable(cfg: Config, w: World, days: nat) {
    && w.now == Days(days) + 1
    && w.db.users == map[0 := User(true, 1, 0)]
    && 1 in w.db.refresh && w.db.refresh[1] == RefreshRow(0, Days(cfg.refreshDays), Some(0), None)
    && w.signed.Keys == {1, 2, 3, 4}
    && w.signed[1] == FirstToken(cfg) && w.signed[4] == LateAccess(cfg, days)
  }

  lemma BeforeState(cfg: Config, days: nat)
    ensures Possible(cfg, INITIAL, Before(cfg, days))
    ensures Replayable(cfg, Run(cfg, INITIAL, Before(cfg, days)), days)
  {
    LoggedOutState(cfg);
    BeforeUnrolled(cfg, Step(cfg, INITIAL, CreateUser(0, 0)).0,
                   Step(cfg, LoggedOut(cfg), Elapse(Days(days) + 1)).0, days);
  }

  /** With the row the replay ends every session; without it nothing happens. */
  lemma ReplayThenUse(cfg: Config, w: World, t: Token, a: Token)
    requires w.db.users == map[0 := User(true, 1, 0)]
    requires Decodes(w, t) && t.kind == Refresh && t.sub == 0
    requires Decodes(w, a) && a.kind == Access && a.sub == 0 && a.tv == 1
    requires t.jti in w.db.refresh ==> w.db.refresh[t.jti].user == 0 && w.db.refresh[t.jti].revokedAt.Some?
    ensures Responses(cfg, w, [Renew(t, 5, 6)] + ([Authenticate(a)] + []))
            == [Refused, if t.jti in w.db.refresh then Refused else Honoured(0)]
  {
    var w' := Step(cfg, w, Renew(t, 5, 6)).0;
    RunCons(cfg, w, Renew(t, 5, 6), [Authenticate(a)] + []);
    RunCons(cfg, w', Authenticate(a), []);
  }

  /** There the first token still decodes although its row is past retention. */
  lemma RowPastRetention(cfg: Config, w: World, days: nat)
    requires Replayable(cfg, w, days) && days <= cfg.refreshDays
    ensures Decodes(w, FirstToken(cfg)) && Decodes(w, LateAccess(cfg, days))
    ensures 1 !in CleanUp(w, days).db.refresh
  {
  }

  lemma AfterIsPossible(cfg: Config, w: World, days: nat)
    requires w.signed.Keys == {1, 2, 3, 4}
    ensures Possible(cfg, w, After(cfg, days))
  {
    var t, a := FirstToken(cfg), LateAccess(cfg, days);
    RunCons(cfg, w, Renew(t, 5, 6), [Authenticate(a)] + []);
    RunCons(cfg, Step(cfg, w, Renew(t, 5, 6)).0, Authenticate(a), []);
  }

  lemma FullAnswers(cfg: Config, w: World, days: nat)
    requires Replayable(cfg, w, days) && days <= cfg.refreshDays
    ensures Responses(cfg, w, After(cfg, days)) == [Refused, Refused]
  {
    RowPastRetention(cfg, w, days);
    ReplayThenUse(cfg, w, FirstToken(cfg), LateAccess(cfg, days));
  }

  lemma SweptAnswers(cfg: Config, w: World, days: nat)
    requires Replayable(cfg, w, days) && days <= cfg.refreshDays
    ensures Responses(cfg, CleanUp(w, days), After(cfg, days)) == [Refused, Honoured(0)]
  {
    RowPastRetention(cfg, w, days);
    ReplayThenUse(cfg, CleanUp(w, days), FirstToken(cfg), LateAccess(cfg, days));
  }

  /** With shorter or equal retention the replay of the first token is an alarm before the task has run, and
      a plain refusal after it. */
  lemma ShortRetentionShows(cfg: Config, days: nat)
    requires days <= cfg.refreshDays
    ensures !Unobservable(cfg, days)
  {
    var w := Run(cfg, INITIAL, Before(cfg, days));
    BeforeState(cfg, days);
    AfterIsPossible(cfg, w, days);
    FullAnswers(cfg, w, days);
    SweptAnswers(cfg, w, days);
  }
}
