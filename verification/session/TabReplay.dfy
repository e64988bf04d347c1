/** What can follow when a refresh ends without its answer: exactly when the used token can be presented
    again, exactly when the server then raises the theft alarm, and two runs in which it does. */
module TabReplay {
  import opened Prelude
  import opened SessionLedger
  import opened SessionInvariant
  import opened TabClient
  import opened TabSession

  ghost predicate CanRepeat(cfg: Config, s: Sys) {
    exists acts :: MayAll(cfg, s, acts) && !NoRepeats(DoAll(cfg, s, acts).presented)
  }

  ghost predicate CanAlarm(cfg: Config, s: Sys) {
    exists acts :: MayAll(cfg, s, acts) && DoAll(cfg, s, acts).alarms > 0
  }

  /* ---------- the token is dropped ---------- */

  lemma TokenlessStep(cfg: Config, s: Sys, a: Act)
    requires s.tab.flight == Idle && s.tab.refresh.None? && May(cfg, s, a)
    ensures !KeepsUsed(s, a)
    ensures var next := Do(cfg, s, a);
      next.tab.flight == Idle && next.tab.refresh.None? && next.presented == s.presented
  {
  }

  /** Without a stored token the tab asks for no refresh in any continuation. */
  lemma {:induction false} TokenlessIsSafe(cfg: Config, s: Sys, acts: seq<Act>)
    requires TabInv(cfg, s) && s.tab.flight == Idle && s.tab.refresh.None? && MayAll(cfg, s, acts)
    ensures DoAll(cfg, s, acts).presented == s.presented && DoAll(cfg, s, acts).alarms == 0
    decreases |acts|
  {
    if acts != [] {
      TokenlessStep(cfg, s, acts[0]);
      ActKeepsInv(cfg, s, acts[0]);
      TokenlessIsSafe(cfg, Do(cfg, s, acts[0]), acts[1..]);
    }
  }

  /** How the tab comes out of a turn that loses a refresh. */
  lemma LosingTurn(cfg: Config, s: Sys, a: Act)
    requires May(cfg, s, a) && LosesRefresh(s, a) && Quiet(s.tab)
    ensures var next := Do(cfg, s, a);
      && next.world == s.world && next.presented == s.presented && next.alarms == s.alarms
      && next.login == s.login && next.user == s.user && next.late == (if a == Reload then Adrift(s) else s.late)
      && next.tab.flight == Idle && Quiet(next.tab)
      && next.tab.refresh == (if KeepsUsed(s, a) then s.tab.refresh else None)
  {
    if a == Settle { SettleTurn(s.tab); }
  }

  lemma DroppedCannot(cfg: Config, s: Sys, a: Act)
    requires TabInv(cfg, s) && May(cfg, s, a) && LosesRefresh(s, a) && !KeepsUsed(s, a)
    ensures !CanRepeat(cfg, Do(cfg, s, a)) && !CanAlarm(cfg, Do(cfg, s, a))
  {
    var next := Do(cfg, s, a);
    LosingTurn(cfg, s, a);
    ActKeepsInv(cfg, s, a);
    forall acts | MayAll(cfg, next, acts)
      ensures NoRepeats(DoAll(cfg, next, acts).presented) && DoAll(cfg, next, acts).alarms == 0
    {
      TokenlessIsSafe(cfg, next, acts);
    }
  }

  /* ---------- the token is kept ---------- */

  lemma Unused(ids: set<nat>) returns (id: nat)
    ensures forall i | i in ids :: i < id
  {
    if ids == {} {
      id := 0;
    } else {
      var one :| one in ids;
      var below := Unused(ids - {one});
      id := Max(below, one + 1);
      assert forall i | i in ids :: i == one || i in ids - {one};
    }
  }

  lemma DoAllCons(cfg: Config, s: Sys, a: Act, acts: seq<Act>)
    requires May(cfg, s, a)
    ensures MayAll(cfg, s, [a] + acts) <==> MayAll(cfg, Do(cfg, s, a), acts)
    ensures MayAll(cfg, Do(cfg, s, a), acts) ==> DoAll(cfg, s, [a] + acts) == DoAll(cfg, Do(cfg, s, a), acts)
  {
    assert ([a] + acts)[1..] == acts;
  }

  /** The state in which a page has asked again with the token that is stored. */
  function AskedAgain(s: Sys, id: nat): Sys
    requires s.tab.refresh.Some?
  {
    s.(tab := s.tab.(flight := Asked(s.tab.refresh.value), calls := s.tab.calls[id := Waiting(Page)]),
       presented := s.presented + [s.tab.refresh.value.jti])
  }

  lemma AskAgain(cfg: Config, s: Sys, id: nat, acts: seq<Act>)
    requires s.tab.flight == Idle && s.tab.refresh.Some? && Quiet(s.tab) && id !in s.tab.calls
    requires MayAll(cfg, AskedAgain(s, id), acts)
    ensures MayAll(cfg, s, [Issue(id)] + ([Reply(id, true)] + acts))
    ensures DoAll(cfg, s, [Issue(id)] + ([Reply(id, true)] + acts)) == DoAll(cfg, AskedAgain(s, id), acts)
  {
    var one := Do(cfg, s, Issue(id));
    var two := HandleReply(one.tab, id, true);
    assert two.calls == s.tab.calls[id := Waiting(Page)];
    QuietDrains(two);
    assert Do(cfg, one, Reply(id, true)) == AskedAgain(s, id);
    DoAllCons(cfg, one, Reply(id, true), acts);
    DoAllCons(cfg, s, Issue(id), [Reply(id, true)] + acts);
  }

  lemma KeptCanRepeat(cfg: Config, s: Sys)
    requires s.tab.flight == Idle && s.tab.refresh.Some? && Quiet(s.tab) && UsedStored(s)
    ensures CanRepeat(cfg, s)
  {
    var id := Unused(s.tab.calls.Keys);
    var again := AskedAgain(s, id);
    AskAgain(cfg, s, id, []);
    var n := |s.presented|;
    assert again.presented[n - 1] == again.presented[n];
  }

  /** What the invariant says of the token that a losing turn keeps. */
  lemma KnowKept(cfg: Config, s: Sys)
    requires TabInv(cfg, s) && UnderWay(s.tab) && s.tab.refresh.Some?
    ensures var t := s.tab.refresh.value;
      && LastPresented(s, t) && TokenKnown(s.world, t.jti) && s.world.signed[t.jti].sub == s.user
      && s.world.hist.origin[t.jti].login == s.login
  {
    var j := s.tab.refresh.value.jti;
    assert LastPresented(s, s.tab.refresh.value);
    assert s.presented[|s.presented| - 1] in s.world.hist.origin;
    KnowToken(cfg, s.world, j);
    assert PlaceOk(s.world.signed, s.world.hist, j);
  }

  lemma KeepingCanRepeat(cfg: Config, s: Sys, a: Act)
    requires Quiet(s.tab) && UsedStored(s) && KeepsUsed(s, a) && May(cfg, s, a)
    ensures CanRepeat(cfg, Do(cfg, s, a))
  {
    LosingTurn(cfg, s, a);
    KeptCanRepeat(cfg, Do(cfg, s, a));
  }

  /** After a turn that loses a refresh the used token can go on the wire again if and only if it is
      still stored and the page was reloaded or every caller that waits is a stopped feed. */
  lemma ReplayPossibleIff(cfg: Config, s: Sys, a: Act)
    requires TabInv(cfg, s) && LosesRefresh(s, a) && May(cfg, s, a)
    ensures CanRepeat(cfg, Do(cfg, s, a)) <==> s.tab.refresh.Some? && (a == Reload || Forgotten(s.tab))
  {
    if KeepsUsed(s, a) {
      KnowKept(cfg, s);
      KeepingCanRepeat(cfg, s, a);
    } else {
      DroppedCannot(cfg, s, a);
    }
  }

  /* ---------- the alarm ---------- */

  /** The server would still decode the token and has its row, which is revoked. */
  predicate IsRevoked(w: World, t: Token) {
    Decodes(w, t) && t.kind == Refresh && t.jti in w.db.refresh && w.db.refresh[t.jti].revokedAt.Some?
  }

  /** The server would still decode the token and has its row, which is revoked or can still be rotated. */
  predicate CanBeReused(w: World, t: Token) {
    Decodes(w, t) && t.jti in w.db.refresh && (w.db.refresh[t.jti].revokedAt.Some? || t.exp > w.now)
  }

  lemma CanAlarmBefore(cfg: Config, s: Sys, a: Act)
    requires May(cfg, s, a) && CanAlarm(cfg, Do(cfg, s, a))
    ensures CanAlarm(cfg, s)
  {
    var acts :| MayAll(cfg, Do(cfg, s, a), acts) && DoAll(cfg, Do(cfg, s, a), acts).alarms > 0;
    DoAllCons(cfg, s, a, acts);
  }

  lemma AskingCanAlarm(cfg: Config, s: Sys, id: nat)
    requires s.tab.flight == Idle && s.tab.refresh.Some? && Quiet(s.tab) && id !in s.tab.calls
    requires CanAlarm(cfg, AskedAgain(s, id))
    ensures CanAlarm(cfg, s)
  {
    var acts :| MayAll(cfg, AskedAgain(s, id), acts) && DoAll(cfg, AskedAgain(s, id), acts).alarms > 0;
    AskAgain(cfg, s, id, acts);
  }

  lemma AlarmedCanAlarm(cfg: Config, s: Sys)
    requires s.alarms > 0
    ensures CanAlarm(cfg, s)
  {
    assert MayAll(cfg, s, []);
  }

  function Replay(id: nat, jti: Jti, accessJti: Jti): seq<Act> {
    [Issue(id)] + ([Reply(id, true)] + ([Serve(jti, accessJti)] + []))
  }

  /** A page that presents a revoked token ends every session of its owner. */
  lemma RevokedAlarms(cfg: Config, s: Sys, id: nat, jti: Jti, accessJti: Jti)
    requires s.tab.flight == Idle && s.tab.refresh.Some? && Quiet(s.tab) && id !in s.tab.calls
    requires IsRevoked(s.world, s.tab.refresh.value)
    requires jti !in s.world.signed && accessJti !in s.world.signed && jti != accessJti
    ensures var acts := Replay(id, jti, accessJti);
      && MayAll(cfg, s, acts) && DoAll(cfg, s, acts).alarms == s.alarms + 1
      && DoAll(cfg, s, acts).world.db
         == RevokeAll(s.world.db, s.world.db.refresh[s.tab.refresh.value.jti].user, s.world.now)
  {
    var again := AskedAgain(s, id);
    DoAllCons(cfg, again, Serve(jti, accessJti), []);
    AskAgain(cfg, s, id, [Serve(jti, accessJti)] + []);
  }

  lemma RevokedCanAlarm(cfg: Config, s: Sys)
    requires s.tab.flight == Idle && s.tab.refresh.Some? && Quiet(s.tab)
    requires IsRevoked(s.world, s.tab.refresh.value)
    ensures CanAlarm(cfg, s)
  {
    var id := Unused(s.tab.calls.Keys);
    var jti := Unused(s.world.signed.Keys);
    RevokedAlarms(cfg, s, id, jti, jti + 1);
  }

  lemma RotatedIsRevoked(cfg: Config, w: World, t: Token, jti: Jti, accessJti: Jti)
    requires Enabled(w, Renew(t, jti, accessJti)) && t.jti in w.signed
    requires Rotate(cfg, w, t, jti, accessJti).1.Rotated?
    ensures var w' := Rotate(cfg, w, t, jti, accessJti).0;
      && IsRevoked(w', t) && t.jti in w.db.refresh && w'.db.refresh[t.jti].user == w.db.refresh[t.jti].user
      && w'.now == w.now && w'.signed.Keys == w.signed.Keys + {jti, accessJti}
  {
  }

  /** The token is on the wire twice: the second to be served raises the alarm. */
  lemma TwiceOnTheWire(cfg: Config, s: Sys, t: Token, jti: Jti)
    requires s.tab.flight == Asked(t) && t in s.late && t.jti in s.world.signed
    requires forall j | j in s.world.signed :: j < jti
    requires Rotate(cfg, s.world, t, jti, jti + 1).1.Rotated?
    ensures CanAlarm(cfg, s)
  {
    RotatedIsRevoked(cfg, s.world, t, jti, jti + 1);
    var served := Do(cfg, s, Serve(jti, jti + 1));
    var again := Do(cfg, served, ServeLate(t, jti + 2, jti + 3));
    AlarmedCanAlarm(cfg, again);
    CanAlarmBefore(cfg, served, ServeLate(t, jti + 2, jti + 3));
    CanAlarmBefore(cfg, s, Serve(jti, jti + 1));
  }

  /** A token that can still be rotated is asked for, the page is reloaded, and it is asked for again. */
  lemma RotatableCanAlarm(cfg: Config, s: Sys, t: Token, jti: Jti)
    requires s.tab.flight == Idle && s.tab.refresh == Some(t) && Quiet(s.tab) && t.jti in s.world.signed
    requires forall j | j in s.world.signed :: j < jti
    requires Rotate(cfg, s.world, t, jti, jti + 1).1.Rotated?
    ensures CanAlarm(cfg, s)
  {
    var id := Unused(s.tab.calls.Keys);
    var asked := AskedAgain(s, id);
    var fresh' := Reloaded(asked);
    TwiceOnTheWire(cfg, AskedAgain(fresh', 0), t, jti);
    AskingCanAlarm(cfg, fresh', 0);
    CanAlarmBefore(cfg, asked, Reload);
    AskingCanAlarm(cfg, s, id);
  }

  lemma ActivatedRotates(cfg: Config, w: World, t: Token, jti: Jti, accessJti: Jti)
    requires TokenKnown(w, t.jti) && CanBeReused(w, t) && w.db.refresh[t.jti].revokedAt.None?
    ensures Rotate(cfg, Step(cfg, w, SetActive(t.sub, true)).0, t, jti, accessJti).1.Rotated?
    ensures Step(cfg, w, SetActive(t.sub, true)).0.signed == w.signed
  {
  }

  /** Should the user be inactive, an administrator may activate the account first. */
  lemma UnrevokedCanAlarm(cfg: Config, s: Sys, t: Token)
    requires s.tab.flight == Idle && s.tab.refresh == Some(t) && Quiet(s.tab)
    requires TokenKnown(s.world, t.jti) && CanBeReused(s.world, t) && s.world.db.refresh[t.jti].revokedAt.None?
    ensures CanAlarm(cfg, s)
  {
    var jti := Unused(s.world.signed.Keys);
    ActivatedRotates(cfg, s.world, t, jti, jti + 1);
    RotatableCanAlarm(cfg, Do(cfg, s, Elsewhere(SetActive(t.sub, true))), t, jti);
    CanAlarmBefore(cfg, s, Elsewhere(SetActive(t.sub, true)));
  }

  /* ---------- a token that cannot be reused ---------- */

  /** A token of the login that the server can neither rotate nor take for stolen. */
  predicate DeadFor(w: World, login: nat, user: UserId, t: Token) {
    && t.jti in w.signed && t.jti in w.hist.origin && w.hist.origin[t.jti].login == login
    && (t.jti in w.db.refresh ==>
          w.db.refresh[t.jti].user == user && w.db.refresh[t.jti].expiresAt == w.signed[t.jti].exp)
    && !CanBeReused(w, t)
  }

  lemma DeadIsRefused(cfg: Config, w: World, login: nat, user: UserId, t: Token, jti: Jti, accessJti: Jti)
    requires DeadFor(w, login, user, t)
    ensures var (w', v) := Rotate(cfg, w, t, jti, accessJti);
      w' == w && !v.Rotated? && v != Rejected(Reused)
  {
  }

  lemma DeadStays(cfg: Config, s: Sys, e: Event, t: Token)
    requires DeadFor(s.world, s.login, s.user, t) && Enabled(s.world, e) && Spares(s, e)
    ensures DeadFor(Step(cfg, s.world, e).0, s.login, s.user, t)
  {
  }

  /** The tab holds no other token, nowhere. */
  ghost predicate HoldsOnly(s: Sys, t: Token) {
    && (s.tab.refresh.Some? ==> s.tab.refresh.value == t)
    && (s.tab.flight.Asked? ==> s.tab.flight.token == t)
    && (s.tab.flight.Answered? ==> !s.tab.flight.reply.NewTokens?)
    && (forall x | x in s.late :: x == t)
  }

  lemma DeadTabAct(cfg: Config, s: Sys, a: Act, t: Token)
    requires HoldsOnly(s, t) && May(cfg, s, a) && OfTheTab(a)
    ensures var next := Do(cfg, s, a);
      && next.world == s.world && next.login == s.login && next.user == s.user && next.alarms == s.alarms
      && HoldsOnly(next, t)
  {
  }

  lemma DeadServe(cfg: Config, s: Sys, a: Act, t: Token)
    requires DeadFor(s.world, s.login, s.user, t) && HoldsOnly(s, t)
    requires May(cfg, s, a) && (a.Serve? || a.ServeLate?)
    ensures var next := Do(cfg, s, a);
      && next.world == s.world && next.login == s.login && next.user == s.user && next.alarms == s.alarms
      && HoldsOnly(next, t)
  {
    DeadIsRefused(cfg, s.world, s.login, s.user, t, a.jti, a.accessJti);
  }

  lemma DeadAct(cfg: Config, s: Sys, a: Act, t: Token)
    requires DeadFor(s.world, s.login, s.user, t) && HoldsOnly(s, t) && s.alarms == 0 && May(cfg, s, a)
    ensures var next := Do(cfg, s, a);
      DeadFor(next.world, next.login, next.user, t) && HoldsOnly(next, t) && next.alarms == 0
  {
    match a
    case Serve(_, _) => DeadServe(cfg, s, a, t);
    case ServeLate(_, _, _) => DeadServe(cfg, s, a, t);
    case Elsewhere(e) => DeadStays(cfg, s, e, t);
    case _ => DeadTabAct(cfg, s, a, t);
  }

  lemma {:induction false} DeadRun(cfg: Config, s: Sys, acts: seq<Act>, t: Token)
    requires DeadFor(s.world, s.login, s.user, t) && HoldsOnly(s, t) && s.alarms == 0 && MayAll(cfg, s, acts)
    ensures DoAll(cfg, s, acts).alarms == 0
    decreases |acts|
  {
    if acts != [] {
      DeadAct(cfg, s, acts[0], t);
      DeadRun(cfg, Do(cfg, s, acts[0]), acts[1..], t);
    }
  }

  lemma DeadCannot(cfg: Config, s: Sys, t: Token)
    requires DeadFor(s.world, s.login, s.user, t) && HoldsOnly(s, t) && s.alarms == 0
    ensures !CanAlarm(cfg, s)
  {
    forall acts | MayAll(cfg, s, acts)
      ensures DoAll(cfg, s, acts).alarms == 0
    {
      DeadRun(cfg, s, acts, t);
    }
  }

  /* ---------- the exact condition ---------- */

  lemma KeptHoldsOnly(cfg: Config, s: Sys, a: Act)
    requires TabOk(s) && KeepsUsed(s, a) && May(cfg, s, a)
    ensures HoldsOnly(Do(cfg, s, a), s.tab.refresh.value)
  {
    LosingTurn(cfg, s, a);
  }

  /** After a turn that loses a refresh the theft alarm can follow if and only if the turn keeps the token and
      the server still decodes it and has its row, which is revoked or has not expired. */
  lemma AlarmPossibleIff(cfg: Config, s: Sys, a: Act)
    requires TabInv(cfg, s) && LosesRefresh(s, a) && May(cfg, s, a)
    ensures CanAlarm(cfg, Do(cfg, s, a)) <==>
              && s.tab.refresh.Some? && (a == Reload || Forgotten(s.tab))
              && CanBeReused(s.world, s.tab.refresh.value)
  {
    if KeepsUsed(s, a) { KeptAlarmIff(cfg, s, a); } else { DroppedCannot(cfg, s, a); }
  }

  lemma KeptAlarmIff(cfg: Config, s: Sys, a: Act)
    requires TabInv(cfg, s) && KeepsUsed(s, a) && May(cfg, s, a)
    ensures CanAlarm(cfg, Do(cfg, s, a)) <==> CanBeReused(s.world, s.tab.refresh.value)
  {
    var t, next := s.tab.refresh.value, Do(cfg, s, a);
    LosingTurn(cfg, s, a);
    KnowKept(cfg, s);
    if !CanBeReused(s.world, t) {
      KeptHoldsOnly(cfg, s, a);
      DeadCannot(cfg, next, t);
    } else if s.world.db.refresh[t.jti].revokedAt.Some? {
      RevokedCanAlarm(cfg, next);
    } else {
      UnrevokedCanAlarm(cfg, next, t);
    }
  }

  /* ---------- two inputs ---------- */

  /** A feed's expired token is refreshed, its page is left, and the answer is lost: nobody hears. */
  function PageLeft(jti: Jti, accessJti: Jti): seq<Act> {
    [Connect(0)] + ([Reply(0, true)] + ([StopStream(0)] + ([Serve(jti, accessJti)] + ([Lose] + ([Settle] + [])))))
  }

  /** A page's expired token is refreshed, and the page is loaded again before the answer comes. */
  function PageReloaded(jti: Jti, accessJti: Jti): seq<Act> {
    [Issue(0)] + ([Reply(0, true)] + ([Serve(jti, accessJti)] + ([Reload] + [])))
  }

  /** Where both lead: the server has rotated, the tab has the used token. */
  function Kept(cfg: Config, s: Sys, jti: Jti, accessJti: Jti, calls: map<nat, Call>): Sys
    requires s.tab.refresh.Some?
  {
    s.(world := Rotate(cfg, s.world, s.tab.refresh.value, jti, accessJti).0,
       tab := s.tab.(calls := calls), presented := s.presented + [s.tab.refresh.value.jti])
  }

  /** A tab that waits for nothing and whose token the server would rotate. */
  predicate Ready(cfg: Config, s: Sys, jti: Jti) {
    && s.tab.access.Some? && s.tab.refresh.Some? && s.tab.flight == Idle && s.tab.calls == map[]
    && s.tab.refresh.value.jti in s.world.signed && (forall j | j in s.world.signed :: j < jti)
    && Rotate(cfg, s.world, s.tab.refresh.value, jti, jti + 1).1.Rotated?
  }

  function Unheard(s: Sys): Sys
    requires s.tab.refresh.Some?
  {
    s.(tab := s.tab.(flight := Asked(s.tab.refresh.value), calls := map[0 := Waiting(Feed(true))]),
       presented := s.presented + [s.tab.refresh.value.jti])
  }

  lemma FeedAsksAndStops(cfg: Config, s: Sys, acts: seq<Act>)
    requires s.tab.access.Some? && s.tab.refresh.Some? && s.tab.flight == Idle && s.tab.calls == map[]
    requires MayAll(cfg, Unheard(s), acts)
    ensures var all := [Connect(0)] + ([Reply(0, true)] + ([StopStream(0)] + acts));
      MayAll(cfg, s, all) && DoAll(cfg, s, all) == DoAll(cfg, Unheard(s), acts)
  {
    var s1 := Do(cfg, s, Connect(0));
    var s2 := Do(cfg, s1, Reply(0, true));
    QuietDrains(HandleReply(s1.tab, 0, true));
    assert Do(cfg, s2, StopStream(0)) == Unheard(s);
    DoAllCons(cfg, s2, StopStream(0), acts);
    DoAllCons(cfg, s1, Reply(0, true), [StopStream(0)] + acts);
    DoAllCons(cfg, s, Connect(0), [Reply(0, true)] + ([StopStream(0)] + acts));
  }

  lemma LosingKeeps(cfg: Config, s: Sys)
    requires s.tab.flight.Answered? && s.tab.calls == map[0 := Waiting(Feed(true))]
    ensures MayAll(cfg, s, [Lose] + ([Settle] + []))
    ensures DoAll(cfg, s, [Lose] + ([Settle] + [])) == s.(tab := s.tab.(flight := Idle, calls := map[0 := Done]))
  {
    DoAllCons(cfg, Do(cfg, s, Lose), Settle, []);
    DoAllCons(cfg, s, Lose, [Settle] + []);
  }

  lemma LeavingThePage(cfg: Config, s: Sys, jti: Jti)
    requires Ready(cfg, s, jti)
    ensures MayAll(cfg, s, PageLeft(jti, jti + 1))
    ensures DoAll(cfg, s, PageLeft(jti, jti + 1)) == Kept(cfg, s, jti, jti + 1, map[0 := Done])
  {
    var served := Do(cfg, Unheard(s), Serve(jti, jti + 1));
    LosingKeeps(cfg, served);
    DoAllCons(cfg, Unheard(s), Serve(jti, jti + 1), [Lose] + ([Settle] + []));
    FeedAsksAndStops(cfg, s, [Serve(jti, jti + 1)] + ([Lose] + ([Settle] + [])));
  }

  lemma ReloadingThePage(cfg: Config, s: Sys, jti: Jti)
    requires Ready(cfg, s, jti)
    ensures MayAll(cfg, s, PageReloaded(jti, jti + 1))
    ensures DoAll(cfg, s, PageReloaded(jti, jti + 1)) == Kept(cfg, s, jti, jti + 1, map[])
  {
    var asked := AskedAgain(s, 0);
    var served := Do(cfg, asked, Serve(jti, jti + 1));
    assert Do(cfg, served, Reload) == Kept(cfg, s, jti, jti + 1, map[]);
    DoAllCons(cfg, served, Reload, []);
    DoAllCons(cfg, asked, Serve(jti, jti + 1), [Reload] + []);
    AskAgain(cfg, s, 0, [Serve(jti, jti + 1)] + ([Reload] + []));
  }

  /** What the server knows of the token that is kept. */
  lemma KeptIsRevoked(cfg: Config, s: Sys, jti: Jti, calls: map<nat, Call>)
    requires Ready(cfg, s, jti)
    ensures var t, kept := s.tab.refresh.value, Kept(cfg, s, jti, jti + 1, calls);
      && IsRevoked(kept.world, t) && kept.tab.refresh == Some(t) && kept.tab.flight == Idle
      && kept.tab.calls == calls && kept.alarms == s.alarms
      && t.jti in s.world.db.refresh && kept.world.db.refresh[t.jti].user == s.world.db.refresh[t.jti].user
      && kept.world.now == s.world.now && forall j | j in kept.world.signed :: j < jti + 2
  {
    RotatedIsRevoked(cfg, s.world, s.tab.refresh.value, jti, jti + 1);
  }

  /** The next page asks with the token that is stored; every session of the user ends. */
  predicate ReplayEndsSessions(cfg: Config, s: Sys, jti: Jti, user: UserId) {
    var acts := Replay(1, jti, jti + 1);
    && MayAll(cfg, s, acts) && DoAll(cfg, s, acts).alarms == s.alarms + 1
    && DoAll(cfg, s, acts).world.db == RevokeAll(s.world.db, user, s.world.now)
  }

  lemma KeptAlarms(cfg: Config, s: Sys, jti: Jti, calls: map<nat, Call>)
    requires Ready(cfg, s, jti) && (forall i | i in calls :: i == 0 && calls[i] == Done)
    ensures s.tab.refresh.value.jti in s.world.db.refresh
    ensures ReplayEndsSessions(cfg, Kept(cfg, s, jti, jti + 1, calls), jti + 2,
                               s.world.db.refresh[s.tab.refresh.value.jti].user)
  {
    KeptIsRevoked(cfg, s, jti, calls);
    RevokedAlarms(cfg, Kept(cfg, s, jti, jti + 1, calls), 1, jti + 2, jti + 3);
  }

  /** After a login the tab is ready. */
  lemma NewLoginIsReady(cfg: Config, w: World, u: UserId, jti: Jti)
    requires u in w.db.users && w.db.users[u].active && cfg.refreshDays > 0
    requires forall j | j in w.signed :: j < jti
    ensures var s := LoggedInTab(cfg, w, u, jti, jti + 1);
      && Ready(cfg, s, jti + 2) && s.tab.refresh.value.jti == jti && s.alarms == 0
      && jti in s.world.db.refresh && s.world.db.refresh[jti].user == u
  {
  }

  /** One tab, one login: the feed asks for a refresh and its page is left, the answer is lost, and the next
      page presents the used token.  The server takes it for stolen and ends every session of the user. */
  lemma LostAnswerAlarms(cfg: Config, w: World, u: UserId, jti: Jti)
    requires u in w.db.users && w.db.users[u].active && cfg.refreshDays > 0
    requires forall j | j in w.signed :: j < jti
    ensures var s := LoggedInTab(cfg, w, u, jti, jti + 1);
      && MayAll(cfg, s, PageLeft(jti + 2, jti + 3))
      && ReplayEndsSessions(cfg, DoAll(cfg, s, PageLeft(jti + 2, jti + 3)), jti + 4, u)
  {
    var s := LoggedInTab(cfg, w, u, jti, jti + 1);
    NewLoginIsReady(cfg, w, u, jti);
    LeavingThePage(cfg, s, jti + 2);
    KeptAlarms(cfg, s, jti + 2, map[0 := Done]);
  }

  /** The same when a page is loaded again while its refresh is under way. */
  lemma ReloadAlarms(cfg: Config, w: World, u: UserId, jti: Jti)
    requires u in w.db.users && w.db.users[u].active && cfg.refreshDays > 0
    requires forall j | j in w.signed :: j < jti
    ensures var s := LoggedInTab(cfg, w, u, jti, jti + 1);
      && MayAll(cfg, s, PageReloaded(jti + 2, jti + 3))
      && ReplayEndsSessions(cfg, DoAll(cfg, s, PageReloaded(jti + 2, jti + 3)), jti + 4, u)
  {
    var s := LoggedInTab(cfg, w, u, jti, jti + 1);
    NewLoginIsReady(cfg, w, u, jti);
    ReloadingThePage(cfg, s, jti + 2);
    KeptAlarms(cfg, s, jti + 2, map[]);
  }
}
