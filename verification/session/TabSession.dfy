/** One tab against the server, in every interleaving. */
module TabSession {
  import opened Prelude
  import opened SessionLedger
  import opened SessionInvariant
  import opened SessionEffects
  import opened TabClient

  /** The server, the tab, the number and the user of the tab's login, every refresh token the tab has
      put on the wire, how often the server took one of them for a stolen one, and the tokens on
      their way to the server after the tab gave up on them. */
  datatype Sys = Sys(world: World, tab: Tab, login: nat, user: UserId, presented: seq<Jti>, alarms: nat,
                     late: multiset<Token>)

  /** Each act is one uninterrupted turn of the tab or one handler.  Any call may come back
      unauthorized; `TurnAway` answers a refresh without reaching the ledger (the rate limiter);
      `Lose` is a refresh that fails at any point of its way, and whose request may still
      be served late; `Wipe` is the application dropping the tokens.  `Reload` is the page loaded
      again: what runs in it is gone, the stored tokens stay. */
  datatype Act =
    | Issue(id: nat)
    | Connect(id: nat)
    | StopStream(id: nat)
    | Reply(id: nat, unauthorized: bool)
    | Serve(jti: Jti, accessJti: Jti)
    | TurnAway
    | Lose
    | ServeLate(token: Token, jti: Jti, accessJti: Jti)
    | Settle
    | Wipe
    | Reload
    | Elsewhere(event: Event)

  function Head(s: Sys): Jti
    requires s.login < |s.world.hist.heads|
  {
    s.world.hist.heads[s.login]
  }

  /** The server's answer to the refresh under way. */
  function Served(cfg: Config, s: Sys, jti: Jti, accessJti: Jti): Sys
    requires s.tab.flight.Asked?
  {
    var (world, v) := Rotate(cfg, s.world, s.tab.flight.token, jti, accessJti);
    s.(world := world,
       tab := s.tab.(flight := Answered(if v.Rotated? then NewTokens(v.access, v.refresh) else NotOk)),
       alarms := s.alarms + if v == Rejected(Reused) then 1 else 0)
  }

  /** A refresh the tab no longer waits for reaches the server. */
  function ServedLate(cfg: Config, s: Sys, t: Token, jti: Jti, accessJti: Jti): Sys {
    var (world, v) := Rotate(cfg, s.world, t, jti, accessJti);
    s.(world := world, late := s.late - multiset{t}, alarms := s.alarms + if v == Rejected(Reused) then 1 else 0)
  }

  predicate UnderWay(tab: Tab) { tab.flight.Asked? || tab.flight.Answered? }

  /** The late requests once the tab gives up on the refresh under way. */
  function Adrift(s: Sys): multiset<Token> {
    if s.tab.flight.Asked? then s.late + multiset{s.tab.flight.token} else s.late
  }

  function Lost(s: Sys): Sys
    requires UnderWay(s.tab)
  {
    s.(tab := s.tab.(flight := Answered(NoAnswer)), late := Adrift(s))
  }

  function Reloaded(s: Sys): Sys {
    s.(tab := s.tab.(flight := Idle, calls := map[]), late := Adrift(s))
  }

  /** A refresh that this act puts on the wire is recorded. */
  function Record(s: Sys, tab: Tab): Sys {
    s.(tab := tab, presented :=
      if s.tab.flight == Idle && tab.flight.Asked? then s.presented + [tab.flight.token.jti] else s.presented)
  }

  predicate May(cfg: Config, s: Sys, a: Act) {
    match a
    case Issue(id) => id !in s.tab.calls
    case Reply(id, _) => id in s.tab.calls && s.tab.calls[id].Sent?
    case Serve(jti, accessJti) => s.tab.flight.Asked? && Enabled(s.world, Renew(s.tab.flight.token, jti, accessJti))
    case Connect(id) => id !in s.tab.calls && s.tab.access.Some?
    case StopStream(id) => id in s.tab.calls
    case TurnAway => s.tab.flight.Asked?
    case Lose => UnderWay(s.tab)
    case ServeLate(t, jti, accessJti) => t in s.late && Enabled(s.world, Renew(t, jti, accessJti))
    case Settle => s.tab.flight.Answered?
    case Wipe => true
    case Reload => true
    case Elsewhere(e) => Enabled(s.world, e) && Spares(s, e)
  }

  function Do(cfg: Config, s: Sys, a: Act): Sys
    requires May(cfg, s, a)
  {
    match a
    case Issue(id) => s.(tab := Launch(s.tab, id, Page))
    case Connect(id) => s.(tab := Launch(s.tab, id, Feed(false)))
    case StopStream(id) => s.(tab := StopFeed(s.tab, id))
    case Reply(id, unauthorized) => Record(s, Drain(HandleReply(s.tab, id, unauthorized)))
    case Serve(jti, accessJti) => Served(cfg, s, jti, accessJti)
    case TurnAway => s.(tab := s.tab.(flight := Answered(NotOk)))
    case Lose => Lost(s)
    case ServeLate(t, jti, accessJti) => ServedLate(cfg, s, t, jti, accessJti)
    case Settle => s.(tab := Drain(FinishRefresh(s.tab)))
    case Wipe => s.(tab := Cleared(s.tab))
    case Reload => Reloaded(s)
    case Elsewhere(e) => s.(world := Step(cfg, s.world, e).0)
  }

  predicate OfThisLogin(s: Sys, t: Token) {
    t.jti in s.world.hist.origin && s.world.hist.origin[t.jti].login == s.login
  }

  /** What else happens on the server presents no token of this login and does not end the
      sessions of its user; logins, other sessions, deactivation and cleanup are all allowed. */
  predicate Spares(s: Sys, e: Event) {
    && !EndsSessions(s.world, e, s.user)
    && (e.Renew? || e.Logout? ==> !OfThisLogin(s, e.token))
  }

  /** Nobody is left to hear of the refresh: every caller that waits is a feed stopped meanwhile. */
  predicate Forgotten(tab: Tab) {
    forall id | id in tab.calls && tab.calls[id].Waiting? :: tab.calls[id].from == Feed(true)
  }

  /** The two turns that end a refresh without its answer. */
  predicate LosesRefresh(s: Sys, a: Act) {
    (a == Settle && s.tab.flight == Answered(NoAnswer)) || (a == Reload && UnderWay(s.tab))
  }

  /** Such a turn keeps the used token: it is stored, and the page is reloaded or nobody hears of the loss. */
  predicate KeepsUsed(s: Sys, a: Act) {
    LosesRefresh(s, a) && s.tab.refresh.Some? && (a == Settle ==> Forgotten(s.tab))
  }

  /* ---------- the invariant ---------- */

  /** The newest token of the login is unrevoked, or cleaned away after its expiry. */
  ghost predicate HeadAlive(w: World, head: Jti) {
    && head in w.signed
    && (head in w.db.refresh ==> w.db.refresh[head].revokedAt.None?)
    && (head !in w.db.refresh ==> w.signed[head].exp <= w.now)
  }

  ghost predicate NoRepeats(presented: seq<Jti>) {
    forall i, k | 0 <= i < k < |presented| :: presented[i] != presented[k]
  }

  ghost predicate PresentedOk(h: History, login: nat, presented: seq<Jti>) {
    && NoRepeats(presented)
    && (forall i | 0 <= i < |presented| :: presented[i] in h.origin && h.origin[presented[i]].login == login)
  }

  ghost predicate FlightOk(s: Sys)
    requires s.login < |s.world.hist.heads| && Head(s) in s.world.signed
  {
    var newest := s.world.signed[Head(s)];
    var none := s.late == multiset{};
    match s.tab.flight
    case Idle => s.tab.refresh.Some? ==> s.tab.refresh.value == newest && newest.jti !in s.presented && none
    case Asked(t) => t == newest && LastPresented(s, t) && (s.tab.refresh.Some? ==> s.tab.refresh.value == t) && none
    case Answered(NewTokens(_, r)) => r == newest && r.jti !in s.presented && UsedStored(s) && none
    case Answered(NotOk) => UsedStored(s) && none
    case Answered(NoAnswer) => UsedStored(s) && (none || s.tab.refresh.None? || s.tab.refresh.value == newest)
    case Stuck => false
  }

  /** Until the answer is handled the stored token is the one that was used. */
  predicate UsedStored(s: Sys) {
    s.tab.refresh.Some? ==> LastPresented(s, s.tab.refresh.value)
  }

  /** The token that went on the wire last. */
  predicate LastPresented(s: Sys, t: Token) {
    s.presented != [] && s.presented[|s.presented| - 1] == t.jti
  }

  /** At most one request is late, and it carries the newest token. */
  ghost predicate LateOk(s: Sys)
    requires s.login < |s.world.hist.heads| && Head(s) in s.world.signed
  {
    s.late == multiset{} || s.late == multiset{s.world.signed[Head(s)]}
  }

  /** A genuine access token of the user, at the user's version. */
  predicate BearerOk(w: World, u: UserId, a: Token) {
    && a.jti in w.signed && w.signed[a.jti] == a && a.kind == Access && a.sub == u
    && u in w.db.users && a.tv == w.db.users[u].tokenVersion
  }

  /** Both tokens are stored or neither, and every access token the tab holds or is about to
      hold is a genuine one of its user. */
  ghost predicate AccessOk(s: Sys) {
    && (s.tab.access.Some? <==> s.tab.refresh.Some?)
    && (s.tab.access.Some? ==> BearerOk(s.world, s.user, s.tab.access.value))
    && (s.tab.flight.Answered? && s.tab.flight.reply.NewTokens? ==>
          BearerOk(s.world, s.user, s.tab.flight.reply.access))
  }

  /** Somebody waits exactly while a refresh is under way. */
  ghost predicate NobodyStranded(tab: Tab) {
    UnderWay(tab) <==> exists id :: id in tab.calls && tab.calls[id].Waiting?
  }

  ghost predicate TabOk(s: Sys) {
    && s.login < |s.world.hist.heads| && HeadAlive(s.world, Head(s))
    && PresentedOk(s.world.hist, s.login, s.presented) && FlightOk(s) && LateOk(s) && s.alarms == 0
    && s.world.signed[Head(s)].sub == s.user && AccessOk(s) && NobodyStranded(s.tab) && Quiet(s.tab)
  }

  ghost predicate TabInv(cfg: Config, s: Sys) {
    Inv(cfg, s.world) && TabOk(s)
  }

  /* ---------- what the server's invariant says of one token ---------- */

  ghost predicate TokenKnown(w: World, j: Jti) {
    && j in w.signed && w.signed[j].jti == j && w.signed[j].kind == Refresh && w.signed[j].sub in w.db.users
    && j in w.hist.origin && w.hist.origin[j].login < |w.hist.heads|
    && (j in w.db.refresh ==>
          && w.db.refresh[j].user == w.signed[j].sub && w.db.refresh[j].expiresAt == w.signed[j].exp
          && (w.db.refresh[j].revokedAt.None? ==>
                && w.signed[j].tv == w.db.users[w.signed[j].sub].tokenVersion
                && j == w.hist.heads[w.hist.origin[j].login]))
  }

  lemma KnowToken(cfg: Config, w: World, j: Jti)
    requires Inv(cfg, w) && j in w.hist.origin
    ensures TokenKnown(w, j)
  {
    assert PlaceOk(w.signed, w.hist, j);
    assert TokenOk(cfg, w.db.users, w.now, j, w.signed[j]);
    if j in w.db.refresh {
      assert RowOk(cfg, w.signed, w.db.users, w.now, j, w.db.refresh[j]);
      assert LinkOk(w.hist, j, w.db.refresh[j]);
    }
  }

  lemma KnowHead(cfg: Config, w: World, l: nat)
    requires Inv(cfg, w) && l < |w.hist.heads|
    ensures TokenKnown(w, w.hist.heads[l]) && w.hist.origin[w.hist.heads[l]].login == l
  {
    assert HeadOk(w.hist, l);
    KnowToken(cfg, w, w.hist.heads[l]);
  }

  /** This login's newest token, as the step lemmas use it. */
  ghost predicate HeadKnown(s: Sys) {
    && s.login < |s.world.hist.heads| && TokenKnown(s.world, Head(s))
    && s.world.hist.origin[Head(s)].login == s.login
  }

  /* ---------- one step ---------- */

  /** The newest token is alive, so the server never takes it for a stolen one. */
  lemma ServeNeverAlarms(cfg: Config, s: Sys, jti: Jti, accessJti: Jti)
    requires TabOk(s) && HeadKnown(s)
    ensures Rotate(cfg, s.world, s.world.signed[Head(s)], jti, accessJti).1 != Rejected(Reused)
  {
  }

  lemma PresentedAreSigned(cfg: Config, s: Sys)
    requires Inv(cfg, s.world) && PresentedOk(s.world.hist, s.login, s.presented)
    ensures forall i | 0 <= i < |s.presented| :: s.presented[i] in s.world.signed
  {
    forall i | 0 <= i < |s.presented|
      ensures s.presented[i] in s.world.signed
    {
      assert PlaceOk(s.world.signed, s.world.hist, s.presented[i]);
    }
  }

  /** A rotation puts the new token at the head of this login. */
  lemma RotationMovesHead(cfg: Config, s: Sys, jti: Jti, accessJti: Jti)
    requires TabOk(s) && HeadKnown(s) && Enabled(s.world, Renew(s.world.signed[Head(s)], jti, accessJti))
    requires Rotate(cfg, s.world, s.world.signed[Head(s)], jti, accessJti).1.Rotated?
    ensures var (w', v) := Rotate(cfg, s.world, s.world.signed[Head(s)], jti, accessJti);
      && s.login < |w'.hist.heads| && w'.hist.heads[s.login] == jti
      && HeadAlive(w', jti) && w'.signed[jti] == v.refresh && v.refresh.jti == jti
      && v.refresh.sub == s.user && BearerOk(w', v.refresh.sub, v.access)
      && (forall j | j in s.world.signed :: j in w'.signed && w'.signed[j] == s.world.signed[j])
      && w'.hist.origin == s.world.hist.origin[jti := w'.hist.origin[jti]]
  {
  }

  /** What the tab holds is sound for the server after a rotation, whoever hears of it. */
  lemma RotationKeepsTab(cfg: Config, s: Sys, jti: Jti, accessJti: Jti)
    requires TabOk(s) && HeadKnown(s) && Enabled(s.world, Renew(s.world.signed[Head(s)], jti, accessJti))
    requires forall i | 0 <= i < |s.presented| :: s.presented[i] in s.world.signed
    ensures var (w', v) := Rotate(cfg, s.world, s.world.signed[Head(s)], jti, accessJti);
      && s.login < |w'.hist.heads| && HeadAlive(w', w'.hist.heads[s.login])
      && w'.signed[w'.hist.heads[s.login]].sub == s.user
      && PresentedOk(w'.hist, s.login, s.presented)
      && AccessOk(s.(world := w')) && v != Rejected(Reused)
      && (v.Rotated? ==>
            && w'.signed[w'.hist.heads[s.login]] == v.refresh && v.refresh.jti !in s.presented
            && BearerOk(w', s.user, v.access))
      && (!v.Rotated? ==> w' == s.world)
  {
    ServeNeverAlarms(cfg, s, jti, accessJti);
    if Rotate(cfg, s.world, s.world.signed[Head(s)], jti, accessJti).1.Rotated? {
      RotationMovesHead(cfg, s, jti, accessJti);
    }
  }

  lemma ServeKeepsTabOk(cfg: Config, s: Sys, jti: Jti, accessJti: Jti)
    requires TabInv(cfg, s) && May(cfg, s, Serve(jti, accessJti))
    ensures TabOk(Served(cfg, s, jti, accessJti))
  {
    KnowHead(cfg, s.world, s.login);
    PresentedAreSigned(cfg, s);
    RotationKeepsTab(cfg, s, jti, accessJti);
  }

  /** The ledger's invariant over either way of serving a refresh. */
  lemma ServedInv(cfg: Config, s: Sys, jti: Jti, accessJti: Jti)
    requires Inv(cfg, s.world) && May(cfg, s, Serve(jti, accessJti))
    ensures Inv(cfg, Served(cfg, s, jti, accessJti).world)
  {
    RotateKeepsInv(cfg, s.world, s.tab.flight.token, jti, accessJti);
  }

  lemma ServedLateInv(cfg: Config, s: Sys, t: Token, jti: Jti, accessJti: Jti)
    requires Inv(cfg, s.world) && May(cfg, s, ServeLate(t, jti, accessJti))
    ensures Inv(cfg, ServedLate(cfg, s, t, jti, accessJti).world)
  {
    RotateKeepsInv(cfg, s.world, t, jti, accessJti);
  }

  lemma ServeKeepsInv(cfg: Config, s: Sys, jti: Jti, accessJti: Jti)
    requires TabInv(cfg, s) && May(cfg, s, Serve(jti, accessJti))
    ensures TabInv(cfg, Served(cfg, s, jti, accessJti))
  {
    ServedInv(cfg, s, jti, accessJti);
    ServeKeepsTabOk(cfg, s, jti, accessJti);
  }

  lemma ServeLateKeepsTab(cfg: Config, s: Sys, t: Token, jti: Jti, accessJti: Jti)
    requires TabOk(s) && HeadKnown(s) && May(cfg, s, ServeLate(t, jti, accessJti))
    requires forall i | 0 <= i < |s.presented| :: s.presented[i] in s.world.signed
    ensures TabOk(ServedLate(cfg, s, t, jti, accessJti))
  {
    assert s.late == multiset{s.world.signed[Head(s)]};
    assert s.late - multiset{t} == multiset{};
    RotationKeepsTab(cfg, s, jti, accessJti);
  }

  lemma ServeLateKeepsTabOk(cfg: Config, s: Sys, t: Token, jti: Jti, accessJti: Jti)
    requires TabInv(cfg, s) && May(cfg, s, ServeLate(t, jti, accessJti))
    ensures TabOk(ServedLate(cfg, s, t, jti, accessJti))
  {
    KnowHead(cfg, s.world, s.login);
    PresentedAreSigned(cfg, s);
    ServeLateKeepsTab(cfg, s, t, jti, accessJti);
  }

  /** A request served after the tab gave up on it does no harm: the tab has dropped its token. */
  lemma ServeLateKeepsInv(cfg: Config, s: Sys, t: Token, jti: Jti, accessJti: Jti)
    requires TabInv(cfg, s) && May(cfg, s, ServeLate(t, jti, accessJti))
    ensures TabInv(cfg, ServedLate(cfg, s, t, jti, accessJti))
  {
    ServedLateInv(cfg, s, t, jti, accessJti);
    ServeLateKeepsTabOk(cfg, s, t, jti, accessJti);
  }

  /** The newest token of this login is where it was, and alive. */
  ghost predicate HeadSpared(s: Sys, w': World)
    requires HeadKnown(s)
  {
    && s.login < |w'.hist.heads| && w'.hist.heads[s.login] == Head(s)
    && HeadAlive(w', Head(s)) && w'.signed[Head(s)] == s.world.signed[Head(s)]
    && (forall j | j in s.world.hist.origin ::
          j in w'.hist.origin && w'.hist.origin[j].login == s.world.hist.origin[j].login)
    && (forall j | j in s.world.signed :: j in w'.signed && w'.signed[j] == s.world.signed[j])
  }

  lemma RenewSparesHead(cfg: Config, s: Sys, t: Token, jti: Jti, accessJti: Jti)
    requires TabOk(s) && HeadKnown(s) && May(cfg, s, Elsewhere(Renew(t, jti, accessJti)))
    requires t.jti in s.world.db.refresh ==> TokenKnown(s.world, t.jti)
    requires jti !in s.world.hist.origin
    ensures HeadSpared(s, Rotate(cfg, s.world, t, jti, accessJti).0)
  {
  }

  lemma RevokeAllSparesHead(s: Sys, u: UserId)
    requires TabOk(s) && HeadKnown(s) && s.user != u
    ensures HeadSpared(s, s.world.(db := RevokeAll(s.world.db, u, s.world.now)))
  {
  }

  lemma LogoutSparesHead(s: Sys, u: UserId, t: Token)
    requires TabOk(s) && HeadKnown(s) && s.user != u && t.jti != Head(s)
    ensures HeadSpared(s, LogoutOf(s.world, u, t))
  {
  }

  lemma CleanupSparesHead(s: Sys, days: nat)
    requires TabOk(s) && HeadKnown(s)
    ensures HeadSpared(s, CleanUp(s.world, days))
  {
  }

  lemma LoginSparesHead(cfg: Config, s: Sys, u: UserId, jti: Jti, accessJti: Jti)
    requires TabOk(s) && HeadKnown(s) && u in s.world.db.users
    requires jti !in s.world.signed && accessJti !in s.world.signed && jti !in s.world.hist.origin
    ensures HeadSpared(s, IssuePair(cfg, s.world, u, jti, accessJti).0)
  {
  }

  lemma ElsewhereSparesHead(cfg: Config, s: Sys, e: Event)
    requires TabOk(s) && HeadKnown(s) && May(cfg, s, Elsewhere(e))
    requires e.Renew? && e.token.jti in s.world.db.refresh ==> TokenKnown(s.world, e.token.jti)
    requires forall j | j in s.world.hist.origin :: j in s.world.signed
    ensures HeadSpared(s, Step(cfg, s.world, e).0)
  {
    match e
    case Renew(t, jti, accessJti) => RenewSparesHead(cfg, s, t, jti, accessJti);
    case Logout(access, t) =>
      if Resolve(s.world, access).Some? { LogoutSparesHead(s, Resolve(s.world, access).value, t); }
    case ChangePassword(access, accepted, _) =>
      if Resolve(s.world, access).Some? && accepted { RevokeAllSparesHead(s, Resolve(s.world, access).value); }
    case AdminSetPassword(u, _) =>
      if u in s.world.db.users { RevokeAllSparesHead(s, u); }
    case ResetPassword(d, _) =>
      if ResetAccepted(s.world, d) { RevokeAllSparesHead(s, s.world.db.resets[d].user); }
    case Cleanup(days) => CleanupSparesHead(s, days);
    case Login(u, _, jti, accessJti) =>
      if u in s.world.db.users { LoginSparesHead(cfg, s, u, jti, accessJti); }
    case _ =>
  }

  lemma SparedKeepsTab(s: Sys, w': World)
    requires TabOk(s) && HeadKnown(s) && HeadSpared(s, w')
    requires s.user in w'.db.users && w'.db.users[s.user].tokenVersion == s.world.db.users[s.user].tokenVersion
    ensures TabOk(s.(world := w'))
  {
  }

  lemma OriginsAreSigned(cfg: Config, w: World)
    requires Inv(cfg, w)
    ensures forall j | j in w.hist.origin :: j in w.signed
  {
    assert forall j | j in w.hist.origin :: PlaceOk(w.signed, w.hist, j);
  }

  lemma KnowRow(cfg: Config, w: World, j: Jti)
    requires Inv(cfg, w)
    ensures j in w.db.refresh ==> TokenKnown(w, j)
  {
    if j in w.db.refresh {
      assert LinkOk(w.hist, j, w.db.refresh[j]);
      KnowToken(cfg, w, j);
    }
  }

  lemma ElsewhereKeepsInv(cfg: Config, s: Sys, e: Event)
    requires TabInv(cfg, s) && May(cfg, s, Elsewhere(e))
    ensures TabInv(cfg, Do(cfg, s, Elsewhere(e)))
  {
    KnowHead(cfg, s.world, s.login);
    if e.Renew? { KnowRow(cfg, s.world, e.token.jti); }
    OriginsAreSigned(cfg, s.world);
    ElsewhereSparesHead(cfg, s, e);
    UserAfter(cfg, s.world, e, s.user);
    SparedKeepsTab(s, Step(cfg, s.world, e).0);
    StepKeepsInv(cfg, s.world, e);
  }

  /** A reply changes its call, and puts the refresh on the wire when nothing is under way. */
  lemma ReplyTurn(tab: Tab, id: nat, unauthorized: bool)
    requires NobodyStranded(tab) && Quiet(tab) && tab.flight != Stuck && id in tab.calls && tab.calls[id].Sent?
    ensures var next := Drain(HandleReply(tab, id, unauthorized));
      && NobodyStranded(next) && Quiet(next) && next.access == tab.access && next.refresh == tab.refresh
      && (next.flight == tab.flight
          || (tab.flight == Idle && tab.refresh.Some? && next.flight == Asked(tab.refresh.value)))
  {
    var replied := HandleReply(tab, id, unauthorized);
    assert forall i | i in replied.calls && i != id :: replied.calls[i] == tab.calls[i];
    QuietDrains(replied);
    if replied.calls[id].Waiting? {
      assert NobodyStranded(replied);
    } else {
      assert forall i | i in tab.calls :: tab.calls[i].Waiting? <==> replied.calls[i].Waiting?;
    }
  }

  lemma ReplyKeepsTab(cfg: Config, s: Sys, id: nat, unauthorized: bool)
    requires TabOk(s) && HeadKnown(s) && May(cfg, s, Reply(id, unauthorized))
    ensures TabOk(Do(cfg, s, Reply(id, unauthorized)))
  {
    ReplyTurn(s.tab, id, unauthorized);
  }

  lemma QuietDrains(tab: Tab)
    requires Quiet(tab)
    ensures Drain(tab) == tab
  {
    assert Drain(tab).calls == tab.calls;
  }

  /** When the shared refresh settles all who wait continue, and a used token stays only if nobody hears. */
  lemma SettleTurn(tab: Tab)
    requires tab.flight.Answered? && Quiet(tab)
    ensures var next := Drain(FinishRefresh(tab));
      && next.flight == Idle && Quiet(next) && next.calls.Keys == tab.calls.Keys
      && (forall i | i in next.calls :: !next.calls[i].Waiting?)
      && match tab.flight.reply
         case NewTokens(a, r) => next.access == Some(a) && next.refresh == Some(r)
         case NotOk => next.access.None? && next.refresh.None?
         case NoAnswer =>
           if Forgotten(tab) then next.access == tab.access && next.refresh == tab.refresh
           else next.access.None? && next.refresh.None?
  {
    var woken := FinishRefresh(tab);
    if !Forgotten(tab) {
      var i :| i in tab.calls && tab.calls[i].Waiting? && tab.calls[i].from != Feed(true);
      assert woken.calls[i] == Woken(tab.calls[i].from, tab.flight.reply.NewTokens?);
    }
    if tab.flight.reply.NewTokens? || Forgotten(tab) {
      assert forall i | i in woken.calls :: !Announces(woken.calls[i]);
    }
  }

  lemma SettleKeepsTab(cfg: Config, s: Sys)
    requires TabOk(s) && HeadKnown(s) && May(cfg, s, Settle) && !KeepsUsed(s, Settle)
    ensures TabOk(Do(cfg, s, Settle))
  {
    SettleTurn(s.tab);
  }

  lemma CallChanges(tab: Tab, next: Tab, id: nat)
    requires NobodyStranded(tab) && Quiet(tab) && next.flight == tab.flight
    requires id in next.calls && !next.calls[id].Woken?
    requires next.calls[id].Waiting? <==> id in tab.calls && tab.calls[id].Waiting?
    requires forall i | i != id :: i in next.calls <==> i in tab.calls
    requires forall i | i != id && i in tab.calls :: next.calls[i] == tab.calls[i]
    ensures NobodyStranded(next) && Quiet(next)
  {
    if i :| i in tab.calls && tab.calls[i].Waiting? { assert next.calls[i].Waiting?; }
    if i :| i in next.calls && next.calls[i].Waiting? { assert tab.calls[i].Waiting?; }
  }

  lemma LaunchKeepsTab(s: Sys, id: nat, from: Caller)
    requires TabOk(s) && HeadKnown(s) && id !in s.tab.calls
    ensures TabOk(s.(tab := Launch(s.tab, id, from)))
  {
    CallChanges(s.tab, Launch(s.tab, id, from), id);
  }

  lemma StopKeepsTab(s: Sys, id: nat)
    requires TabOk(s) && HeadKnown(s) && id in s.tab.calls
    ensures TabOk(s.(tab := StopFeed(s.tab, id)))
  {
    CallChanges(s.tab, StopFeed(s.tab, id), id);
  }

  predicate OfTheTab(a: Act) { !a.Elsewhere? && !a.Serve? && !a.ServeLate? }

  lemma TabActKeepsTab(cfg: Config, s: Sys, a: Act)
    requires TabOk(s) && HeadKnown(s) && May(cfg, s, a) && !KeepsUsed(s, a) && OfTheTab(a)
    ensures TabOk(Do(cfg, s, a))
  {
    match a
    case Issue(id) => LaunchKeepsTab(s, id, Page);
    case Connect(id) => LaunchKeepsTab(s, id, Feed(false));
    case StopStream(id) => StopKeepsTab(s, id);
    case Reply(id, unauthorized) => ReplyKeepsTab(cfg, s, id, unauthorized);
    case Settle => SettleKeepsTab(cfg, s);
    case _ =>
  }

  /** Every act keeps the invariant, unless it keeps a used token. */
  lemma ActKeepsInv(cfg: Config, s: Sys, a: Act)
    requires TabInv(cfg, s) && May(cfg, s, a) && !KeepsUsed(s, a)
    ensures TabInv(cfg, Do(cfg, s, a))
  {
    match a
    case Serve(jti, accessJti) => ServeKeepsInv(cfg, s, jti, accessJti);
    case ServeLate(t, jti, accessJti) => ServeLateKeepsInv(cfg, s, t, jti, accessJti);
    case Elsewhere(e) => ElsewhereKeepsInv(cfg, s, e);
    case _ =>
      KnowHead(cfg, s.world, s.login);
      TabActKeepsTab(cfg, s, a);
  }

  /* ---------- every run ---------- */

  predicate MayAll(cfg: Config, s: Sys, acts: seq<Act>)
    decreases |acts|
  {
    acts == [] || (May(cfg, s, acts[0]) && MayAll(cfg, Do(cfg, s, acts[0]), acts[1..]))
  }

  function DoAll(cfg: Config, s: Sys, acts: seq<Act>): Sys
    requires MayAll(cfg, s, acts)
    decreases |acts|
  {
    if acts == [] then s else DoAll(cfg, Do(cfg, s, acts[0]), acts[1..])
  }

  /** In no turn of the run is a used token kept. */
  predicate Heard(cfg: Config, s: Sys, acts: seq<Act>)
    requires MayAll(cfg, s, acts)
    decreases |acts|
  {
    acts == [] || (!KeepsUsed(s, acts[0]) && Heard(cfg, Do(cfg, s, acts[0]), acts[1..]))
  }

  /** The tab right after its login was answered. */
  function LoggedInTab(cfg: Config, w: World, u: UserId, jti: Jti, accessJti: Jti): Sys
    requires u in w.db.users
  {
    var (world, v) := IssuePair(cfg, w, u, jti, accessJti);
    Sys(world, Tab(Some(v.access), Some(v.refresh), Idle, map[]), |w.hist.heads|, u, [], 0, multiset{})
  }

  lemma LoginEstablishesInv(cfg: Config, w: World, u: UserId, jti: Jti, accessJti: Jti)
    requires Inv(cfg, w) && u in w.db.users
    requires jti !in w.signed && accessJti !in w.signed && jti != accessJti
    ensures TabInv(cfg, LoggedInTab(cfg, w, u, jti, accessJti))
  {
    IssuePairKeepsInv(cfg, w, u, jti, accessJti);
  }

  lemma {:induction false} ActsKeepInv(cfg: Config, s: Sys, acts: seq<Act>)
    requires TabInv(cfg, s) && MayAll(cfg, s, acts) && Heard(cfg, s, acts)
    ensures TabInv(cfg, DoAll(cfg, s, acts)) && DoAll(cfg, s, acts).user == s.user
    decreases |acts|
  {
    if acts != [] {
      ActKeepsInv(cfg, s, acts[0]);
      ActsKeepInv(cfg, Do(cfg, s, acts[0]), acts[1..]);
    }
  }

  lemma FromLogin(cfg: Config, w: World, u: UserId, jti: Jti, accessJti: Jti, acts: seq<Act>)
    requires Inv(cfg, w) && u in w.db.users
    requires jti !in w.signed && accessJti !in w.signed && jti != accessJti
    requires MayAll(cfg, LoggedInTab(cfg, w, u, jti, accessJti), acts)
    requires Heard(cfg, LoggedInTab(cfg, w, u, jti, accessJti), acts)
    ensures var s := DoAll(cfg, LoggedInTab(cfg, w, u, jti, accessJti), acts); TabOk(s) && s.user == u
  {
    LoginEstablishesInv(cfg, w, u, jti, accessJti);
    ActsKeepInv(cfg, LoggedInTab(cfg, w, u, jti, accessJti), acts);
  }

  /** The stored token is the living head of its chain, the one in flight (presented last, its answer
      not handled yet), or gone. */
  ghost predicate StoredOk(s: Sys)
    requires s.login < |s.world.hist.heads|
  {
    s.tab.refresh.Some? ==>
      || (HeadAlive(s.world, Head(s)) && s.tab.refresh.value == s.world.signed[Head(s)])
      || (s.tab.flight.Answered? && LastPresented(s, s.tab.refresh.value))
  }

  /** From one login on, in every interleaving of requests, feeds, reloads, refusals, refreshes answered,
      lost or served late, and everything else the server does: as long as no used token is kept, no refresh
      token goes on the wire twice, the server never raises the theft alarm, the shared promise never
      sticks, somebody waits exactly while a refresh is under way, and the stored tokens are sound. */
  lemma SingleFlightIsSafe(cfg: Config, before: seq<Event>, u: UserId, jti: Jti, accessJti: Jti, acts: seq<Act>)
    requires Possible(cfg, INITIAL, before)
    requires var w := Run(cfg, INITIAL, before);
      && u in w.db.users && Enabled(w, Login(u, true, jti, accessJti))
      && MayAll(cfg, LoggedInTab(cfg, w, u, jti, accessJti), acts)
      && Heard(cfg, LoggedInTab(cfg, w, u, jti, accessJti), acts)
    ensures var s := DoAll(cfg, LoggedInTab(cfg, Run(cfg, INITIAL, before), u, jti, accessJti), acts);
      && NoRepeats(s.presented) && s.alarms == 0 && s.tab.flight != Stuck && NobodyStranded(s.tab)
      && s.login < |s.world.hist.heads| && StoredOk(s) && s.user == u && AccessOk(s)
  {
    RunKeepsInv(cfg, INITIAL, before);
    FromLogin(cfg, Run(cfg, INITIAL, before), u, jti, accessJti, acts);
  }

  lemma {:induction false} NeverSticks(cfg: Config, s: Sys, acts: seq<Act>)
    requires s.tab.flight != Stuck && MayAll(cfg, s, acts)
    ensures DoAll(cfg, s, acts).tab.flight != Stuck
    decreases |acts|
  {
    if acts != [] {
      NeverSticks(cfg, Do(cfg, s, acts[0]), acts[1..]);
    }
  }

  /** Should the promise ever stick, it sticks exactly until the page is reloaded: up to then no refresh
      goes on the wire again, whatever tokens are stored. */
  lemma {:induction false} StuckUntilReload(cfg: Config, s: Sys, acts: seq<Act>)
    requires s.tab.flight == Stuck && MayAll(cfg, s, acts)
    ensures DoAll(cfg, s, acts).tab.flight == Stuck <==> Reload !in acts
    ensures Reload !in acts ==> DoAll(cfg, s, acts).presented == s.presented
    decreases |acts|
  {
    if acts != [] {
      assert acts == [acts[0]] + acts[1..];
      if acts[0] == Reload {
        NeverSticks(cfg, Reloaded(s), acts[1..]);
      } else {
        StuckUntilReload(cfg, Do(cfg, s, acts[0]), acts[1..]);
      }
    }
  }

  /** A refresh under way is refused only when the session is over: the token no longer
      decodes, its row is past its expiry, or the user was deactivated. */
  lemma RefusedOnlyWhenOver(cfg: Config, s: Sys, jti: Jti, accessJti: Jti)
    requires TabInv(cfg, s) && s.tab.flight.Asked?
    ensures var t, w := s.tab.flight.token, s.world;
      && t.sub in w.db.users
      && (Rotate(cfg, w, t, jti, accessJti).1.Rotated? <==>
            Decodes(w, t) && t.exp > w.now && w.db.users[t.sub].active)
  {
    KnowHead(cfg, s.world, s.login);
  }
}
