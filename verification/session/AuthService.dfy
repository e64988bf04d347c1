/** The handlers as the server runs them: statements on a session's view of the
    database, commits, and the rollback of a request that raised. */
module AuthService {
  import opened Prelude
  import opened SessionLedger

  const RESET_DRAWS: nat := 5

  class Server {
    const cfg: Config
    var committed: Ledger
    var pending: Ledger           // what the current request's session sees
    var signed: map<Jti, Token>
    ghost var hist: History

    constructor (cfg: Config)
      ensures this.cfg == cfg && View(0) == INITIAL && Clean()
    {
      this.cfg := cfg;
      committed, pending, signed := INITIAL.db, INITIAL.db, map[];
      hist := INITIAL.hist;
    }

    /** The committed state; a request that has not begun sees the same. */
    ghost function View(now: Time): World
      reads this
    {
      World(committed, signed, now, hist)
    }

    ghost predicate Clean()
      reads this
    {
      pending == committed
    }

    method Commit()
      modifies this`committed
      ensures Clean()
    {
      committed := pending;
    }

    method Rollback()
      modifies this`pending
      ensures Clean()
    {
      pending := committed;
    }

    method DecodeToken(t: Token, now: Time) returns (payload: Option<Token>)
      ensures payload == if Decodes(View(now), t) then Some(t) else None
    {
      payload := None;
      if t.jti in signed && signed[t.jti] == t && WholeSecond(now) <= WholeSecond(t.exp) {
        payload := Some(t);
      }
    }

    method RevokeAllUserTokens(u: UserId, now: Time) returns (revoked: nat)
      modifies this`pending, this`committed
      ensures Clean() && committed == RevokeAll(old(pending), u, now)
      ensures revoked == |set j | j in old(pending.refresh)
                            && old(pending.refresh)[j].user == u && old(pending.refresh)[j].revokedAt.None?|
      ensures forall j | j in committed.refresh ::
                committed.refresh[j].user == u ==> committed.refresh[j].revokedAt.Some?
    {
      var hit := set j | j in pending.refresh && pending.refresh[j].user == u && pending.refresh[j].revokedAt.None?;
      pending := pending.(refresh := RevokeRows(pending.refresh, u, now));
      pending := pending.(users := BumpVersion(pending.users, u));
      Commit();
      revoked := |hit|;
    }

    method RevokeRefreshToken(t: Token, now: Time) returns (found: bool)
      requires Clean()
      modifies this`pending, this`committed
      ensures Clean()
      ensures committed == if Decodes(old(View(now)), t) then RevokeOne(old(committed), t.jti, now) else old(committed)
      ensures found <==> committed != old(committed)
    {
      var payload := DecodeToken(t, now);
      if payload.None? { return false; }
      found := t.jti in pending.refresh && pending.refresh[t.jti].revokedAt.None?;
      if found {
        pending := pending.(refresh := pending.refresh[t.jti := pending.refresh[t.jti].(revokedAt := Some(now))]);
        assert pending.refresh[t.jti] != old(committed).refresh[t.jti];
      }
      Commit();
    }

    method IssueTokenPair(u: UserId, now: Time, jti: Jti, accessJti: Jti) returns (v: Verdict)
      requires Clean() && u in committed.users && jti != accessJti
      modifies this
      ensures Clean() && (View(now), v) == IssuePair(cfg, old(View(now)), u, jti, accessJti)
    {
      var tv := pending.users[u].tokenVersion;
      var access := Token(Access, accessJti, u, tv, now + Minutes(cfg.accessMinutes));
      signed := signed[accessJti := access];
      var refresh := Token(Refresh, jti, u, tv, now + Days(cfg.refreshDays));
      signed := signed[jti := refresh];
      pending := pending.(refresh := pending.refresh[jti := RefreshRow(u, now + Days(cfg.refreshDays), None, None)]);
      Commit();
      hist := Begin(hist, jti);
      v := Rotated(access, refresh);
    }

    /** The login endpoint; `admitted` stands for the organization and password checks. */
    method LoginRoute(u: UserId, admitted: bool, now: Time, jti: Jti, accessJti: Jti) returns (r: Response)
      requires Clean() && jti != accessJti
      modifies this
      ensures Clean() && (View(now), r) == Step(cfg, old(View(now)), Login(u, admitted, jti, accessJti))
    {
      if u !in pending.users || !admitted || !pending.users[u].active { return Refused; }
      var pair := IssueTokenPair(u, now, jti, accessJti);
      r := Pair(pair.access, pair.refresh);
    }

    method RotateRefreshToken(t: Token, now: Time, jti: Jti, accessJti: Jti) returns (v: Verdict)
      requires Clean() && jti != accessJti
      modifies this
      ensures Clean() && (View(now), v) == Rotate(cfg, old(View(now)), t, jti, accessJti)
    {
      var payload := DecodeToken(t, now);
      if payload.None? || payload.value.kind != Refresh { return Rejected(BadToken); }
      if t.jti !in pending.refresh { return Rejected(UnknownJti); }
      var record := pending.refresh[t.jti];
      if record.revokedAt.Some? {
        var _ := RevokeAllUserTokens(record.user, now);
        return Rejected(Reused);
      }
      if record.expiresAt <= now { return Rejected(RowExpired); }
      if record.user !in pending.users || !pending.users[record.user].active { return Rejected(NoUser); }
      var user := pending.users[record.user];
      if payload.value.tv != user.tokenVersion { return Rejected(StaleVersion); }

      var refresh := Token(Refresh, jti, record.user, user.tokenVersion, now + Days(cfg.refreshDays));
      signed := signed[jti := refresh];
      record := record.(revokedAt := Some(now));
      record := record.(replacedBy := Some(jti));
      pending := pending.(refresh := pending.refresh[t.jti := record]);
      var row := RefreshRow(record.user, now + Days(cfg.refreshDays), None, None);
      pending := pending.(refresh := pending.refresh[jti := row]);
      Commit();
      hist := Succeed(hist, t.jti, jti);
      var access := Token(Access, accessJti, record.user, user.tokenVersion, now + Minutes(cfg.accessMinutes));
      signed := signed[accessJti := access];
      v := Rotated(access, refresh);
    }

    /** The refresh endpoint inside `get_db`: a refusal raises, so the session is rolled
        back, and what reuse detection committed stays. */
    method RefreshRoute(t: Token, now: Time, jti: Jti, accessJti: Jti) returns (r: Response)
      requires Clean() && jti != accessJti
      modifies this
      ensures Clean()
      ensures (View(now), r) == Step(cfg, old(View(now)), Renew(t, jti, accessJti))
    {
      var v := RotateRefreshToken(t, now, jti, accessJti);
      if v.Rejected? {
        Rollback();
        return Refused;
      }
      Commit();
      r := Pair(v.access, v.refresh);
    }

    method ResolveActiveUser(t: Token, now: Time) returns (who: Option<UserId>)
      requires Clean()
      ensures who == Resolve(View(now), t)
    {
      var payload := DecodeToken(t, now);
      if payload.None? || payload.value.kind != Access { return None; }
      var id := payload.value.sub;
      if id !in pending.users || !pending.users[id].active { return None; }
      if payload.value.tv != pending.users[id].tokenVersion { return None; }
      who := Some(id);
    }

    method LogoutRoute(access: Token, t: Token, now: Time) returns (r: Response)
      requires Clean()
      modifies this`pending, this`committed
      ensures Clean() && (View(now), r) == Step(cfg, old(View(now)), Logout(access, t))
    {
      var who := ResolveActiveUser(access, now);
      if who.None? { return Refused; }
      var _ := RevokeRefreshToken(t, now);
      var _ := RevokeAllUserTokens(who.value, now);
      r := Honoured(who.value);
    }

    method ChangePasswordRoute(access: Token, accepted: bool, hash: PasswordHash, now: Time) returns (r: Response)
      requires Clean()
      modifies this`pending, this`committed
      ensures Clean() && (View(now), r) == Step(cfg, old(View(now)), ChangePassword(access, accepted, hash))
    {
      var who := ResolveActiveUser(access, now);
      if who.None? || !accepted { return Refused; }
      pending := SetPassword(pending, who.value, hash);
      Commit();
      var _ := RevokeAllUserTokens(who.value, now);
      r := Honoured(who.value);
    }

    /** At most five draws; `None` is the error after five collisions. */
    method DrawDigest(draws: seq<Digest>) returns (digest: Option<Digest>)
      requires |draws| == RESET_DRAWS
      ensures digest.None? <==> forall d | d in draws :: d in pending.resets
      ensures digest.Some? ==> digest.value in draws && digest.value !in pending.resets
    {
      var i := 0;
      while i < RESET_DRAWS && draws[i] in pending.resets
        invariant i <= RESET_DRAWS
        invariant forall k | 0 <= k < i :: draws[k] in pending.resets
      {
        i := i + 1;
      }
      digest := if i == RESET_DRAWS then None else Some(draws[i]);
    }

    method ExpireRows(stale: set<Digest>, now: Time)
      requires stale <= pending.resets.Keys
      modifies this`pending
      ensures pending == old(pending).(resets := map d | d in old(pending.resets) ::
                if d in stale then old(pending.resets)[d].(expiresAt := now - Seconds(1)) else old(pending.resets)[d])
    {
      ghost var before := pending.resets;
      var rest := stale;
      while rest != {}
        invariant rest <= stale
        invariant pending == old(pending).(resets := pending.resets)
        invariant pending.resets.Keys == before.Keys
        invariant forall e | e in before ::
          pending.resets[e] == if e in stale - rest then before[e].(expiresAt := now - Seconds(1)) else before[e]
        decreases |rest|
      {
        var e :| e in rest;
        pending := pending.(resets := pending.resets[e := pending.resets[e].(expiresAt := now - Seconds(1))]);
        rest := rest - {e};
      }
    }

    /** Stores a new digest and pushes every other unused token of the user into the past. */
    method CreateResetToken(u: UserId, now: Time, draws: seq<Digest>) returns (digest: Option<Digest>)
      requires Clean() && |draws| == RESET_DRAWS
      modifies this
      ensures Clean()
      ensures digest.None? <==> forall d | d in draws :: d in old(committed).resets
      ensures digest.None? ==> View(now) == old(View(now))
      ensures digest.Some? ==> digest.value in draws && digest.value !in old(committed).resets
      ensures digest.Some? ==> View(now) == CreateReset(cfg, old(View(now)), u, digest.value)
    {
      digest := DrawDigest(draws);
      if digest.None? { return; }

      var d := digest.value;
      var record := ResetRow(u, now + Minutes(cfg.resetMinutes), None);
      // The new row is not flushed yet, so the query does not see it.
      var stale := set e | e in pending.resets && pending.resets[e].user == u && pending.resets[e].usedAt.None?;
      ExpireRows(stale, now);
      pending := pending.(resets := pending.resets[d := record]);
      assert pending.resets == ExpirePending(old(pending).resets, u, now)[d := record];
      Commit();
      hist := hist.(issued := hist.issued + {d});
    }

    method ConsumeResetToken(d: Digest, hash: PasswordHash, now: Time) returns (done: bool)
      requires Clean()
      modifies this`pending, this`committed
      ensures Clean() && View(now) == ConsumeReset(old(View(now)), d, hash)
      ensures done <==> ResetAccepted(old(View(now)), d)
    {
      if d !in pending.resets || !Usable(pending.resets[d], now) { return false; }
      var record := pending.resets[d];
      if record.user !in pending.users || !pending.users[record.user].active { return false; }
      pending := pending.(resets := pending.resets[d := record.(usedAt := Some(now))]);
      pending := SetPassword(pending, record.user, hash);
      Commit();
      var _ := RevokeAllUserTokens(record.user, now);
      done := true;
    }

    /** The nightly task; both row counts are what the two deletions removed. */
    method CleanupExpiredTokens(retentionDays: nat, now: Time) returns (resetsDeleted: int, refreshDeleted: int)
      requires Clean()
      modifies this`pending, this`committed
      ensures Clean() && View(now) == CleanUp(old(View(now)), retentionDays)
      ensures resetsDeleted == |old(committed).resets| - |committed.resets|
      ensures refreshDeleted == |old(committed).refresh| - |committed.refresh|
    {
      var cutoff := now - Days(retentionDays);
      var before := pending;
      pending := pending.(resets :=
        map d | d in pending.resets && !ResetPastRetention(pending.resets[d], cutoff) :: pending.resets[d]);
      resetsDeleted := |before.resets| - |pending.resets|;
      pending := pending.(refresh :=
        map j | j in pending.refresh && !RefreshPastRetention(pending.refresh[j], cutoff) :: pending.refresh[j]);
      refreshDeleted := |before.refresh| - |pending.refresh|;
      Commit();
    }
  }
}
