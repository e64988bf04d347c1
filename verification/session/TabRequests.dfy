/** What becomes of a single call of the tab: it carries the stored token, waits at most once, goes on the wire
    at most twice, and is sent again with a token the server honours. */
module TabRequests {
  import opened Prelude
  import opened SessionLedger
  import opened SessionInvariant
  import opened TabClient
  import opened TabSession
  import opened TabReplay

  /* ---------- one reply, one settlement ---------- */

  /** A call that was retried ends with its answer, whatever that is. */
  lemma RetriedCallEnds(tab: Tab, id: nat, unauthorized: bool)
    requires id in tab.calls && tab.calls[id].Sent? && !tab.calls[id].retry
    ensures HandleReply(tab, id, unauthorized) == tab.(calls := tab.calls[id := Done])
  {
  }

  /** A first answer of 401 makes the call wait exactly when a refresh token is stored; any other ends it. */
  lemma FirstAnswer(tab: Tab, id: nat, unauthorized: bool)
    requires id in tab.calls && tab.calls[id].Sent? && tab.calls[id].retry && tab.flight != Stuck
    ensures var next := HandleReply(tab, id, unauthorized);
      && next.calls == tab.calls[id := if unauthorized && tab.refresh.Some? then Waiting(tab.calls[id].from) else Done]
      && (next.flight != tab.flight <==> unauthorized && tab.refresh.Some? && tab.flight == Idle)
  {
  }

  /** When the refresh settles every waiting caller is served, each in its way, and no other call is touched. */
  lemma WaitersAreServed(tab: Tab, id: nat)
    requires tab.flight.Answered? && Quiet(tab) && id in tab.calls
    ensures var next := Drain(FinishRefresh(tab));
      && id in next.calls
      && next.calls[id] ==
         if !tab.calls[id].Waiting? then tab.calls[id]
         else if tab.flight.reply.NewTokens? && tab.calls[id].from != Feed(true)
         then Sent(tab.calls[id].from, Some(tab.flight.reply.access), false)
         else Done
  {
  }

  /* ---------- how often a call goes on the wire ---------- */

  /** The act puts the call on the wire. */
  predicate PutsOnWire(cfg: Config, s: Sys, a: Act, id: nat)
    requires May(cfg, s, a)
  {
    OnWire(Do(cfg, s, a).tab, id) && !OnWire(s.tab, id)
  }

  /** The act is the call's answer and makes it ask for a refresh. */
  predicate AsksForRefresh(cfg: Config, s: Sys, a: Act, id: nat)
    requires May(cfg, s, a)
  {
    a.Reply? && a.id == id && |Do(cfg, s, a).presented| > |s.presented|
  }

  function Sends(cfg: Config, s: Sys, acts: seq<Act>, id: nat): nat
    requires MayAll(cfg, s, acts)
    decreases |acts|
  {
    if acts == [] then 0
    else (if PutsOnWire(cfg, s, acts[0], id) then 1 else 0) + Sends(cfg, Do(cfg, s, acts[0]), acts[1..], id)
  }

  function Asks(cfg: Config, s: Sys, acts: seq<Act>, id: nat): nat
    requires MayAll(cfg, s, acts)
    decreases |acts|
  {
    if acts == [] then 0
    else (if AsksForRefresh(cfg, s, acts[0], id) then 1 else 0) + Asks(cfg, Do(cfg, s, acts[0]), acts[1..], id)
  }

  function SendsLeft(tab: Tab, id: nat): nat {
    if id !in tab.calls then 2
    else match tab.calls[id]
      case Sent(_, _, retry) => if retry then 1 else 0
      case Waiting(from) => if from == Feed(true) then 0 else 1
      case Woken(from, refreshed) => if refreshed && from != Feed(true) then 1 else 0
      case Done => 0
  }

  function AsksLeft(tab: Tab, id: nat): nat {
    if id !in tab.calls || (tab.calls[id].Sent? && tab.calls[id].retry) then 1 else 0
  }

  lemma ActUsesUpSends(cfg: Config, s: Sys, a: Act, id: nat)
    requires May(cfg, s, a) && a != Reload
    ensures (if PutsOnWire(cfg, s, a, id) then 1 else 0) + SendsLeft(Do(cfg, s, a).tab, id) <= SendsLeft(s.tab, id)
  {
    match a
    case Reply(i, unauthorized) => ReplyUsesUp(s.tab, i, unauthorized, id);
    case Settle => SettleUsesUp(s.tab, id);
    case _ =>
  }

  predicate OnWire(tab: Tab, id: nat) { id in tab.calls && tab.calls[id].Sent? }

  lemma ReplyUsesUp(tab: Tab, i: nat, unauthorized: bool, id: nat)
    requires i in tab.calls && tab.calls[i].Sent?
    ensures var next := Drain(HandleReply(tab, i, unauthorized));
      (if OnWire(next, id) && !OnWire(tab, id) then 1 else 0) + SendsLeft(next, id) <= SendsLeft(tab, id)
  {
  }

  lemma SettleUsesUp(tab: Tab, id: nat)
    requires tab.flight.Answered?
    ensures var next := Drain(FinishRefresh(tab));
      (if OnWire(next, id) && !OnWire(tab, id) then 1 else 0) + SendsLeft(next, id) <= SendsLeft(tab, id)
  {
  }

  lemma ActUsesUpAsks(cfg: Config, s: Sys, a: Act, id: nat)
    requires May(cfg, s, a) && a != Reload
    ensures (if AsksForRefresh(cfg, s, a, id) then 1 else 0) + AsksLeft(Do(cfg, s, a).tab, id) <= AsksLeft(s.tab, id)
  {
  }

  lemma {:induction false} RunUsesUp(cfg: Config, s: Sys, acts: seq<Act>, id: nat)
    requires MayAll(cfg, s, acts) && Reload !in acts
    ensures Sends(cfg, s, acts, id) <= SendsLeft(s.tab, id)
    ensures Asks(cfg, s, acts, id) <= AsksLeft(s.tab, id)
    decreases |acts|
  {
    if acts != [] {
      assert acts[0] in acts;
      ActUsesUpSends(cfg, s, acts[0], id);
      ActUsesUpAsks(cfg, s, acts[0], id);
      RunUsesUp(cfg, Do(cfg, s, acts[0]), acts[1..], id);
    }
  }

  /** In every interleaving from a login, as long as the page is loaded, a call goes on the wire at most
      twice and asks for at most one refresh. */
  lemma AtMostOneRetry(cfg: Config, w: World, u: UserId, jti: Jti, accessJti: Jti, acts: seq<Act>, id: nat)
    requires u in w.db.users
    requires MayAll(cfg, LoggedInTab(cfg, w, u, jti, accessJti), acts) && Reload !in acts
    ensures Sends(cfg, LoggedInTab(cfg, w, u, jti, accessJti), acts, id) <= 2
    ensures Asks(cfg, LoggedInTab(cfg, w, u, jti, accessJti), acts, id) <= 1
  {
    RunUsesUp(cfg, LoggedInTab(cfg, w, u, jti, accessJti), acts, id);
  }

  /** A feed that was stopped never goes on the wire again, and stopping touches no page. */
  lemma StoppedFeedIsSilent(cfg: Config, s: Sys, id: nat, acts: seq<Act>)
    requires Quiet(s.tab) && id in s.tab.calls
    requires MayAll(cfg, Do(cfg, s, StopStream(id)), acts) && Reload !in acts
    ensures var next := Do(cfg, s, StopStream(id));
      && ((s.tab.calls[id].Sent? || s.tab.calls[id].Waiting?) && s.tab.calls[id].from.Feed? ==>
            Sends(cfg, next, acts, id) == 0)
      && ((s.tab.calls[id].Sent? || s.tab.calls[id].Waiting?) && s.tab.calls[id].from.Page? ==> next == s)
      && (forall i | i in s.tab.calls && i != id :: i in next.tab.calls && next.tab.calls[i] == s.tab.calls[i])
  {
    RunUsesUp(cfg, Do(cfg, s, StopStream(id)), acts, id);
  }

  /* ---------- what a call carries ---------- */

  /** A call carries the stored access token, which the server honours exactly until it expires, while
      the user is active. */
  lemma StoredTokenIsHonoured(cfg: Config, s: Sys, id: nat)
    requires TabInv(cfg, s) && s.tab.access.Some? && id !in s.tab.calls
    ensures var w, t := s.world, s.tab.access.value;
      && s.user in w.db.users
      && (Resolve(w, t) == Some(s.user) <==> Decodes(w, t) && w.db.users[s.user].active)
    ensures Do(cfg, s, Issue(id)).tab.calls == s.tab.calls[id := Sent(Page, s.tab.access, true)]
    ensures Do(cfg, s, Connect(id)).tab.calls == s.tab.calls[id := Sent(Feed(false), s.tab.access, true)]
  {
  }

  /** The turns of a call whose token has expired. */
  function Recovery(id: nat, jti: Jti, accessJti: Jti): seq<Act> {
    [Reply(id, true)] + ([Serve(jti, accessJti)] + ([Settle] + []))
  }

  /** A first call that comes back unauthorized is on the wire again after one refresh, with a token that
      the server honours. */
  lemma ExpiredCallRecovers(cfg: Config, s: Sys, id: nat, jti: Jti, accessJti: Jti)
    requires TabInv(cfg, s) && s.tab.flight == Idle && s.tab.refresh.Some?
    requires id in s.tab.calls && s.tab.calls[id].Sent? && s.tab.calls[id].retry && s.tab.calls[id].from != Feed(true)
    requires Enabled(s.world, Renew(s.tab.refresh.value, jti, accessJti))
    requires Rotate(cfg, s.world, s.tab.refresh.value, jti, accessJti).1.Rotated?
    ensures MayAll(cfg, s, Recovery(id, jti, accessJti))
    ensures var later := DoAll(cfg, s, Recovery(id, jti, accessJti));
      && id in later.tab.calls && later.tab.calls[id].Sent? && !later.tab.calls[id].retry
      && later.tab.calls[id].from == s.tab.calls[id].from && later.tab.calls[id].bearer.Some?
      && Resolve(later.world, later.tab.calls[id].bearer.value) == Some(s.user)
  {
    KnowHead(cfg, s.world, s.login);
    RecoveryRuns(cfg, s, id, jti, accessJti);
    MintedIsHonoured(cfg, s.world, s.tab.refresh.value, jti, accessJti);
  }

  lemma MintedIsHonoured(cfg: Config, w: World, t: Token, jti: Jti, accessJti: Jti)
    requires Enabled(w, Renew(t, jti, accessJti)) && Rotate(cfg, w, t, jti, accessJti).1.Rotated?
    ensures var (w', v) := Rotate(cfg, w, t, jti, accessJti);
      t.jti in w.db.refresh && Resolve(w', v.access) == Some(w.db.refresh[t.jti].user)
  {
  }

  lemma RecoveryRuns(cfg: Config, s: Sys, id: nat, jti: Jti, accessJti: Jti)
    requires s.tab.flight == Idle && s.tab.refresh.Some? && Quiet(s.tab)
    requires id in s.tab.calls && s.tab.calls[id].Sent? && s.tab.calls[id].retry && s.tab.calls[id].from != Feed(true)
    requires Enabled(s.world, Renew(s.tab.refresh.value, jti, accessJti))
    requires Rotate(cfg, s.world, s.tab.refresh.value, jti, accessJti).1.Rotated?
    ensures MayAll(cfg, s, Recovery(id, jti, accessJti))
    ensures var later, (w', v) := DoAll(cfg, s, Recovery(id, jti, accessJti)),
                                  Rotate(cfg, s.world, s.tab.refresh.value, jti, accessJti);
      && later.world == w' && id in later.tab.calls
      && later.tab.calls[id] == Sent(s.tab.calls[id].from, Some(v.access), false)
  {
    var replied := HandleReply(s.tab, id, true);
    assert replied.calls[id] == Waiting(s.tab.calls[id].from);
    QuietDrains(replied);
    var asked := Do(cfg, s, Reply(id, true));
    var served := Do(cfg, asked, Serve(jti, accessJti));
    WaitersAreServed(served.tab, id);
    DoAllCons(cfg, served, Settle, []);
    DoAllCons(cfg, asked, Serve(jti, accessJti), [Settle] + []);
    DoAllCons(cfg, s, Reply(id, true), [Serve(jti, accessJti)] + ([Settle] + []));
  }
}
