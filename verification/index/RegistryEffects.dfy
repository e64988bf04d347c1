/** What every registry event is for: whom it makes recognizable, whom it takes away, which indexes it loads,
    and that it concerns nobody else. */
module RegistryEffects {
  import opened Prelude
  import opened VectorCodec
  import opened Registry

  /** The user whose face or account an event is about. */
  function About(e: Event): Option<UserId> {
    match e
    case CreateUser(u, _) => Some(u)
    case Register(_, u, _) => Some(u)
    case Deregister(_, u) => Some(u)
    case DeleteUser(u) => Some(u)
    case _ => None
  }

  /** Everybody else's account, stored vector and entry in every table stay as they are. */
  lemma OthersStay(w: World, e: Event, dim: nat, x: UserId)
    requires About(e) != Some(x)
    ensures var s, s' := w.store, Step(w, e, dim).store;
      && (x in s'.users <==> x in s.users) && (x in s.users ==> s'.users[x] == s.users[x])
      && (x in s'.embeddings <==> x in s.embeddings) && (x in s.embeddings ==> s'.embeddings[x] == s.embeddings[x])
  {
  }

  lemma OtherEntriesStay(w: World, e: Event, dim: nat, x: UserId, org: OrgId)
    requires About(e) != Some(x)
    ensures var t, t' := Table(w.store, org, dim), Table(Step(w, e, dim).store, org, dim);
      (x in t' <==> x in t) && (x in t ==> t'[x] == t[x])
  {
    OthersStay(w, e, dim, x);
  }

  /* ---------- registering and taking away ---------- */

  /** After an active user of the organization registers, the table has the vector and the index is loaded with
      it; registering anybody else changes nothing. */
  lemma RegisterTakesEffect(w: World, org: OrgId, u: UserId, v: Vector, dim: nat)
    requires Agrees(w, dim) && v != [] && |v| == dim
    ensures var w' := Step(w, Register(org, u, v), dim);
      if u in w.store.users && w.store.users[u] == Account(org, true) then
        && u in Table(w'.store, org, dim) && Table(w'.store, org, dim)[u] == v
        && org in w'.loaded && u in w'.loaded[org] && w'.loaded[org][u] == v
      else w' == w
  {
    if u in w.store.users && w.store.users[u] == Account(org, true) {
      TableAfterRegister(w.store, org, u, v, dim);
      RegisterAgrees(w, org, u, v, dim);
    }
  }

  /** After a user of the organization is deregistered no vector is stored, no table and no loaded index has the
      user; for anybody else nothing changes. */
  lemma DeregisterTakesEffect(w: World, org: OrgId, u: UserId, dim: nat)
    requires Agrees(w, dim)
    ensures var w' := Step(w, Deregister(org, u), dim);
      if u in w.store.users && w.store.users[u].org == org then
        && u !in w'.store.embeddings
        && (forall o :: u !in Table(w'.store, o, dim))
        && (forall o | o in w'.loaded :: u !in w'.loaded[o])
        && w'.store.users == w.store.users && w'.loaded.Keys == w.loaded.Keys
      else w' == w
  {
    DeregisterAgrees(w, org, u, dim);
  }

  /** After an account is deleted it is inactive and no table and no loaded index has the user. */
  lemma DeleteTakesEffect(w: World, u: UserId, dim: nat)
    requires Agrees(w, dim)
    ensures var w' := Step(w, DeleteUser(u), dim);
      if u in w.store.users then
        && u in w'.store.users && w'.store.users[u] == Account(w.store.users[u].org, false)
        && (forall o :: u !in Table(w'.store, o, dim))
        && (forall o | o in w'.loaded :: u !in w'.loaded[o])
        && w'.loaded.Keys == w.loaded.Keys
      else w' == w
  {
    DeleteUserAgrees(w, u, dim);
  }

  /** A new account is active and has its organization; an existing one is left alone. */
  lemma CreateTakesEffect(w: World, u: UserId, org: OrgId, dim: nat)
    ensures var w' := Step(w, CreateUser(u, org), dim);
      if u in w.store.users then w' == w
      else u in w'.store.users && w'.store.users[u] == Account(org, true) && w'.loaded == w.loaded
  {
  }

  /* ---------- loading and dropping ---------- */

  /** The user is an active one of the organization and has a usable vector. */
  predicate HasFace(s: Store, u: UserId, org: OrgId, dim: nat) {
    && u in s.embeddings && u in s.users && s.users[u] == Account(org, true)
    && Decode(s.embeddings[u], dim).Some?
  }

  /** Somebody of the organization can be recognized. */
  ghost predicate HasFaces(s: Store, org: OrgId, dim: nat) {
    exists u :: HasFace(s, u, org, dim)
  }

  lemma HasFacesIffTable(s: Store, org: OrgId, dim: nat)
    ensures HasFaces(s, org, dim) <==> Table(s, org, dim) != map[]
  {
    if HasFaces(s, org, dim) {
      var u :| HasFace(s, u, org, dim);
      assert u in Table(s, org, dim);
    }
    if Table(s, org, dim) != map[] {
      var u :| u in Table(s, org, dim);
      assert HasFace(s, u, org, dim);
    }
  }

  /** A refresh loads the active organizations in which somebody can be recognized, and no other. */
  lemma RefreshLoadsExactly(w: World, org: OrgId, dim: nat)
    ensures var w' := Step(w, RefreshAll, dim);
      && w'.store == w.store
      && (org in w'.loaded <==> org in w.store.activeOrgs && HasFaces(w.store, org, dim))
  {
    HasFacesIffTable(w.store, org, dim);
  }

  /** Asking for a matcher loads that index alone, if there is anybody to recognize. */
  lemma GetLoadsExactly(w: World, org: OrgId, o: OrgId, dim: nat)
    ensures var w' := Step(w, GetMatcher(org), dim);
      && w'.store == w.store
      && (o in w'.loaded <==> o in w.loaded || (o == org && HasFaces(w.store, org, dim)))
      && (o in w.loaded ==> w'.loaded[o] == w.loaded[o])
  {
    HasFacesIffTable(w.store, org, dim);
  }

  lemma InvalidateDropsOne(w: World, org: OrgId, o: OrgId, dim: nat)
    ensures var w' := Step(w, Invalidate(org), dim);
      && w'.store == w.store && (o in w'.loaded <==> o in w.loaded && o != org)
      && (o in w'.loaded ==> w'.loaded[o] == w.loaded[o])
  {
  }

  lemma ShutdownDropsAll(w: World, dim: nat)
    ensures Step(w, Shutdown, dim).store == w.store && Step(w, Shutdown, dim).loaded == map[]
  {
  }

  lemma OrgActivity(w: World, org: OrgId, active: bool, o: OrgId, dim: nat)
    ensures var w' := Step(w, SetOrgActive(org, active), dim);
      && (o in w'.store.activeOrgs <==> if o == org then active else o in w.store.activeOrgs)
      && w'.store.users == w.store.users && w'.store.embeddings == w.store.embeddings && w'.loaded == w.loaded
  {
  }

  /** Only an organization's activation changes which organizations are active. */
  lemma ActivityOnlyBySetting(w: World, e: Event, dim: nat)
    requires !e.SetOrgActive?
    ensures Step(w, e, dim).store.activeOrgs == w.store.activeOrgs
  {
  }

  /* ---------- over runs ---------- */

  predicate NotRegistered(es: seq<Event>, u: UserId) {
    forall e | e in es :: !(e.Register? && e.user == u)
  }

  lemma NoVectorStep(w: World, e: Event, dim: nat, u: UserId)
    requires u !in w.store.embeddings && !(e.Register? && e.user == u)
    ensures u !in Step(w, e, dim).store.embeddings
  {
  }

  /** Whoever has no stored vector is in no table until registered. */
  lemma {:induction false} GoneUntilRegistered(w: World, es: seq<Event>, dim: nat, u: UserId)
    requires u !in w.store.embeddings && NotRegistered(es, u)
    ensures u !in Run(w, es, dim).store.embeddings
    ensures forall o :: u !in Table(Run(w, es, dim).store, o, dim)
    decreases |es|
  {
    if es != [] {
      assert es[0] in es;
      NoVectorStep(w, es[0], dim, u);
      GoneUntilRegistered(Step(w, es[0], dim), es[1..], dim, u);
    }
  }

  lemma InactiveStep(w: World, e: Event, dim: nat, u: UserId)
    requires u in w.store.users && !w.store.users[u].active
    ensures var s' := Step(w, e, dim).store; u in s'.users && !s'.users[u].active
  {
  }

  /** A deleted account is in no table ever again, whoever tries to register it. */
  lemma {:induction false} DeletedIsGone(w: World, es: seq<Event>, dim: nat, u: UserId)
    requires u in w.store.users && !w.store.users[u].active
    ensures forall o :: u !in Table(Run(w, es, dim).store, o, dim)
    decreases |es|
  {
    if es != [] {
      InactiveStep(w, es[0], dim, u);
      DeletedIsGone(Step(w, es[0], dim), es[1..], dim, u);
    }
  }

  predicate NotAbout(es: seq<Event>, u: UserId) {
    forall e | e in es :: About(e) != Some(u)
  }

  /** A registered face stays in its table, as it is, until an event is about its user. */
  lemma {:induction false} StaysRegistered(w: World, es: seq<Event>, dim: nat, u: UserId, org: OrgId)
    requires NotAbout(es, u)
    ensures var t, t' := Table(w.store, org, dim), Table(Run(w, es, dim).store, org, dim);
      (u in t' <==> u in t) && (u in t ==> t'[u] == t[u])
    decreases |es|
  {
    if es != [] {
      assert es[0] in es;
      OtherEntriesStay(w, es[0], dim, u, org);
      StaysRegistered(Step(w, es[0], dim), es[1..], dim, u, org);
    }
  }
}
