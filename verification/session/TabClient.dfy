/** One browser tab: two stored tokens, the shared refresh, and any number of requests and feeds.

    JavaScript runs a function up to its next `await` without interruption; each
    such stretch is one function here and one method of `Client`.  The callers that wait for
    the shared refresh all continue in the turn in which it settles (`Drain`).
  */
module TabClient {
  import opened Prelude
  import opened SessionLedger

  /** The shared refresh promise: absent, waiting for the server, its answer on the way
      back, or settled without ever being reset. */
  datatype Flight = Idle | Asked(token: Token) | Answered(reply: Reply) | Stuck

  /** `NoAnswer` is a network failure, a timeout, or an answer that does not parse. */
  datatype Reply = NewTokens(access: Token, refresh: Token) | NotOk | NoAnswer

  /** Who asks: a page through `request`, or one connection attempt of the live feed. */
  datatype Caller = Page | Feed(stopped: bool)

  datatype Call = Sent(from: Caller, bearer: Option<Token>, retry: bool)
                | Waiting(from: Caller) | Woken(from: Caller, refreshed: bool) | Done

  datatype Tab = Tab(access: Option<Token>, refresh: Option<Token>, flight: Flight, calls: map<nat, Call>)

  function Cleared(tab: Tab): Tab { tab.(access := None, refresh := None) }

  /** `refreshTokens` up to its first await. */
  function BeginRefresh(tab: Tab): Tab {
    if tab.flight != Idle then tab
    else if tab.refresh.None? then tab.(flight := Stuck)
    else tab.(flight := Asked(tab.refresh.value))
  }

  function Wake(calls: map<nat, Call>, ok: bool): map<nat, Call> {
    map i | i in calls :: if calls[i].Waiting? then Woken(calls[i].from, ok) else calls[i]
  }

  /** `refreshTokens` from the answer on; every waiting caller learns the result.  Without an
      answer the tokens stay. */
  function FinishRefresh(tab: Tab): Tab
    requires tab.flight.Answered?
  {
    match tab.flight.reply
    case NewTokens(a, r) => tab.(access := Some(a), refresh := Some(r), flight := Idle, calls := Wake(tab.calls, true))
    case NotOk => Cleared(tab).(flight := Idle, calls := Wake(tab.calls, false))
    case NoAnswer => tab.(flight := Idle, calls := Wake(tab.calls, false))
  }

  function Launch(tab: Tab, id: nat, from: Caller): Tab {
    tab.(calls := tab.calls[id := Sent(from, tab.access, true)])
  }

  /** The feed's cleanup function: an attempt on the wire is aborted, one that waits for the
      refresh will notice when it continues. */
  function StopFeed(tab: Tab, id: nat): Tab
    requires id in tab.calls
  {
    match tab.calls[id]
    case Sent(Feed(_), _, _) => tab.(calls := tab.calls[id := Done])
    case Waiting(Feed(_)) => tab.(calls := tab.calls[id := Waiting(Feed(true))])
    case _ => tab
  }

  /** A caller once its response is there. */
  function HandleReply(tab: Tab, id: nat, unauthorized: bool): Tab
    requires id in tab.calls && tab.calls[id].Sent?
  {
    var from := tab.calls[id].from;
    if unauthorized && tab.calls[id].retry && tab.refresh.Some? then
      var begun := BeginRefresh(tab);
      begun.(calls := begun.calls[id := if begun.flight == Stuck then Woken(from, false) else Waiting(from)])
    else tab.(calls := tab.calls[id := Done])
  }

  /** A caller once the refresh it awaited has settled.  A failure is announced to the
      application, which drops both tokens; a stopped feed leaves without a word. */
  function Resume(tab: Tab, id: nat): Tab
    requires id in tab.calls && tab.calls[id].Woken?
  {
    var Woken(from, refreshed) := tab.calls[id];
    if from == Feed(true) then tab.(calls := tab.calls[id := Done])
    else if refreshed then tab.(calls := tab.calls[id := Sent(from, tab.access, false)])
    else Cleared(tab).(calls := tab.calls[id := Done])
  }

  /* ---------- the rest of a turn ---------- */

  predicate Quiet(tab: Tab) {
    forall i | i in tab.calls :: !tab.calls[i].Woken?
  }

  predicate Announces(c: Call) { c.Woken? && !c.refreshed && c.from != Feed(true) }

  function Continued(c: Call, access: Option<Token>): Call {
    if !c.Woken? then c
    else if c.refreshed && c.from != Feed(true) then Sent(c.from, access, false)
    else Done
  }

  /** Every woken caller has continued. */
  function Drain(tab: Tab): Tab {
    var calls := map i | i in tab.calls :: Continued(tab.calls[i], tab.access);
    if exists i | i in tab.calls :: Announces(tab.calls[i])
    then Cleared(tab).(calls := calls)
    else tab.(calls := calls)
  }

  predicate Resumable(tab: Tab, ids: seq<nat>)
    decreases |ids|
  {
    ids == [] || (ids[0] in tab.calls && tab.calls[ids[0]].Woken? && Resumable(Resume(tab, ids[0]), ids[1..]))
  }

  function ResumeAll(tab: Tab, ids: seq<nat>): Tab
    requires Resumable(tab, ids)
    decreases |ids|
  {
    if ids == [] then tab else ResumeAll(Resume(tab, ids[0]), ids[1..])
  }

  lemma ResumeThenDrain(tab: Tab, id: nat, ok: bool)
    requires id in tab.calls && tab.calls[id].Woken?
    requires forall i | i in tab.calls && tab.calls[i].Woken? :: tab.calls[i].refreshed == ok
    ensures Drain(Resume(tab, id)) == Drain(tab)
  {
    var next := Resume(tab, id);
    assert next.calls.Keys == tab.calls.Keys;
    assert forall i | i in tab.calls && i != id :: next.calls[i] == tab.calls[i];
    assert Drain(next).calls == Drain(tab).calls;
    if Announces(tab.calls[id]) {
      assert Drain(tab).refresh.None? && Drain(next).refresh.None?;
    } else if i :| i in tab.calls && Announces(tab.calls[i]) {
      assert Announces(next.calls[i]);
    }
  }

  /** Whatever the order in which the woken callers continue, the turn ends in the same state. */
  lemma {:induction false} AnyOrderDrains(tab: Tab, ids: seq<nat>, ok: bool)
    requires Resumable(tab, ids) && Quiet(ResumeAll(tab, ids))
    requires forall i | i in tab.calls && tab.calls[i].Woken? :: tab.calls[i].refreshed == ok
    ensures ResumeAll(tab, ids) == Drain(tab)
    decreases |ids|
  {
    if ids == [] {
      assert Drain(tab).calls == tab.calls;
    } else {
      ResumeThenDrain(tab, ids[0], ok);
      AnyOrderDrains(Resume(tab, ids[0]), ids[1..], ok);
    }
  }

  /* ---------- the promise that is never reset ---------- */

  /** Asking for a refresh sticks exactly when there is no token and no refresh under way:
      that exit leaves the function before the block that resets the promise. */
  lemma SticksExactly(tab: Tab)
    ensures BeginRefresh(tab).flight == Stuck <==>
              tab.flight == Stuck || (tab.flight == Idle && tab.refresh.None?)
  {
  }

  /** A request issued from `request` never makes the promise stick. */
  lemma RequestsNeverStick(tab: Tab, id: nat, unauthorized: bool)
    requires id in tab.calls && tab.calls[id].Sent? && tab.flight != Stuck
    ensures HandleReply(tab, id, unauthorized).flight != Stuck
  {
  }

  /* ---------- the module as it runs ---------- */

  class Client {
    var accessToken: Option<Token>
    var refreshToken: Option<Token>
    var refreshInFlight: Flight
    var calls: map<nat, Call>

    ghost function View(): Tab
      reads this
    {
      Tab(accessToken, refreshToken, refreshInFlight, calls)
    }

    /** The page is loaded: the tokens are those in storage, nothing is under way. */
    constructor (storedAccess: Option<Token>, storedRefresh: Option<Token>)
      ensures View() == Tab(storedAccess, storedRefresh, Idle, map[])
    {
      accessToken, refreshToken, refreshInFlight, calls := storedAccess, storedRefresh, Idle, map[];
    }

    method StoreTokens(access: Token, refresh: Token)
      modifies this`accessToken, this`refreshToken
      ensures View() == old(View()).(access := Some(access), refresh := Some(refresh))
    {
      accessToken := Some(access);
      refreshToken := Some(refresh);
    }

    method ClearTokens()
      modifies this`accessToken, this`refreshToken
      ensures View() == Cleared(old(View()))
    {
      accessToken := None;
      refreshToken := None;
    }

    /** Returns the token put on the wire, if this call put one there. */
    method RefreshTokens() returns (sent: Option<Token>)
      modifies this`refreshInFlight
      ensures View() == BeginRefresh(old(View()))
      ensures sent == if old(refreshInFlight) == Idle then old(refreshToken) else None
    {
      sent := None;
      if refreshInFlight != Idle { return; }
      var refresh := refreshToken;
      if refresh.None? {
        refreshInFlight := Stuck;
        return;
      }
      refreshInFlight := Asked(refresh.value);
      sent := refresh;
    }

    method OnRefreshAnswered()
      requires refreshInFlight.Answered?
      modifies this
      ensures View() == FinishRefresh(old(View()))
    {
      var ok := false;
      match refreshInFlight.reply {
        case NewTokens(access, refresh) =>
          StoreTokens(access, refresh);
          ok := true;
        case NotOk => ClearTokens();
        case NoAnswer =>
      }
      refreshInFlight := Idle;
      calls := Wake(calls, ok);
    }

    method Request(id: nat) returns (bearer: Option<Token>)
      modifies this`calls
      ensures View() == Launch(old(View()), id, Page) && bearer == accessToken
    {
      bearer := accessToken;
      calls := calls[id := Sent(Page, bearer, true)];
    }

    /** One round of the feed's loop; without an access token the feed ends. */
    method ConnectFeed(id: nat) returns (bearer: Option<Token>)
      modifies this`calls
      ensures bearer == accessToken
      ensures View() == if bearer.Some? then Launch(old(View()), id, Feed(false)) else old(View())
    {
      bearer := accessToken;
      if bearer.None? { return; }
      calls := calls[id := Sent(Feed(false), bearer, true)];
    }

    method Stop(id: nat)
      requires id in calls
      modifies this`calls
      ensures View() == StopFeed(old(View()), id)
    {
      match calls[id] {
        case Sent(Feed(_), _, _) => calls := calls[id := Done];
        case Waiting(Feed(_)) => calls := calls[id := Waiting(Feed(true))];
        case _ =>
      }
    }

    method OnReply(id: nat, unauthorized: bool) returns (sent: Option<Token>)
      requires id in calls && calls[id].Sent?
      modifies this`refreshInFlight, this`calls
      ensures View() == HandleReply(old(View()), id, unauthorized)
      ensures sent.Some? ==> unauthorized && old(refreshInFlight) == Idle && sent == old(refreshToken)
    {
      sent := None;
      var from := calls[id].from;
      if unauthorized && calls[id].retry && refreshToken.Some? {
        sent := RefreshTokens();
        calls := calls[id := if refreshInFlight == Stuck then Woken(from, false) else Waiting(from)];
      } else {
        calls := calls[id := Done];
      }
    }

    method OnSettled(id: nat)
      requires id in calls && calls[id].Woken?
      modifies this
      ensures View() == Resume(old(View()), id)
    {
      var from := calls[id].from;
      if from == Feed(true) {
        calls := calls[id := Done];
      } else if calls[id].refreshed {
        calls := calls[id := Sent(from, accessToken, false)];
      } else {
        ClearTokens();
        calls := calls[id := Done];
      }
    }
  }
}
