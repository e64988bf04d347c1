/** The per-organization indexes as a cache of the embeddings table. */
module Registry {
  import opened Prelude
  import opened VectorCodec

  type OrgId = string
  type UserId = string
  type Vector = seq<Word>
  type Faces = map<UserId, Vector>

  datatype Account = Account(org: OrgId, active: bool)

  /** The three tables the registry reads. */
  datatype Store = Store(users: map<UserId, Account>, embeddings: map<UserId, seq<byte>>, activeOrgs: set<OrgId>)

  /** `dim` is the configured embedding dimension. */
  datatype World = World(store: Store, loaded: map<OrgId, Faces>)

  /** What the index of an organization should be: its active users' decodable vectors. */
  function Table(s: Store, org: OrgId, dim: nat): Faces {
    map u | u in s.embeddings && u in s.users && s.users[u] == Account(org, true)
            && Decode(s.embeddings[u], dim).Some? :: Decode(s.embeddings[u], dim).value
  }

  /* ---------- the operations ---------- */

  /** `refresh_all`: every active organization with a vector, and no other. */
  function Refreshed(s: Store, dim: nat): map<OrgId, Faces> {
    map org | org in s.activeOrgs && Table(s, org, dim) != map[] :: Table(s, org, dim)
  }

  /** `get_matcher`: loads a missing index unless there is nothing to load. */
  function Loaded(w: World, org: OrgId, dim: nat): World {
    if org in w.loaded || Table(w.store, org, dim) == map[] then w
    else w.(loaded := w.loaded[org := Table(w.store, org, dim)])
  }

  function Upsert(w: World, org: OrgId, u: UserId, v: Vector, dim: nat): World {
    var ready := Loaded(w, org, dim);
    var faces := if org in ready.loaded then ready.loaded[org] else map[];
    ready.(loaded := ready.loaded[org := faces[u := v]])
  }

  function RemoveFrom(w: World, org: OrgId, u: UserId): World {
    if org in w.loaded then w.(loaded := w.loaded[org := w.loaded[org] - {u}]) else w
  }

  datatype Event =
    | CreateUser(user: UserId, org: OrgId)
    | SetOrgActive(org: OrgId, active: bool)
    | Register(org: OrgId, user: UserId, vector: Vector)
    | Deregister(org: OrgId, user: UserId)
    | DeleteUser(user: UserId)
    | RefreshAll
    | GetMatcher(org: OrgId)
    | Invalidate(org: OrgId)
    | Shutdown

  function Step(w: World, e: Event, dim: nat): World {
    match e
    case CreateUser(u, org) =>
      if u in w.store.users then w
      else w.(store := w.store.(users := w.store.users[u := Account(org, true)]))
    case SetOrgActive(org, b) =>
      w.(store := w.store.(activeOrgs := if b then w.store.activeOrgs + {org} else w.store.activeOrgs - {org}))
    case Register(org, u, v) =>
      if u !in w.store.users || w.store.users[u] != Account(org, true) then w
      else Upsert(w.(store := w.store.(embeddings := w.store.embeddings[u := Encode(v)])), org, u, v, dim)
    case Deregister(org, u) =>
      if u !in w.store.users || w.store.users[u].org != org then w
      else RemoveFrom(w.(store := w.store.(embeddings := w.store.embeddings - {u})), org, u)
    case DeleteUser(u) =>
      if u !in w.store.users then w
      else
        var indexed := w.store.users[u].active && u in w.store.embeddings;
        var after := w.(store := w.store.(users := w.store.users[u := w.store.users[u].(active := false)]));
        if indexed then RemoveFrom(after, w.store.users[u].org, u) else after
    case RefreshAll => w.(loaded := Refreshed(w.store, dim))
    case GetMatcher(org) => Loaded(w, org, dim)
    case Invalidate(org) => w.(loaded := w.loaded - {org})
    case Shutdown => w.(loaded := map[])
  }

  function Run(w: World, es: seq<Event>, dim: nat): World
    decreases |es|
  {
    if es == [] then w else Run(Step(w, es[0], dim), es[1..], dim)
  }

  /* ---------- cache and table agree ---------- */

  ghost predicate Agrees(w: World, dim: nat) {
    forall org | org in w.loaded :: w.loaded[org] == Table(w.store, org, dim)
  }

  /** The engine produces vectors of the configured, positive dimension. */
  predicate WellSized(e: Event, dim: nat) {
    e.Register? ==> e.vector != [] && |e.vector| == dim
  }

  /** Two stores that differ at most in one user of one organization. */
  ghost predicate SameButFor(s: Store, s': Store, u: UserId, org: OrgId) {
    && u in s.users && u in s'.users && s.users[u].org == s'.users[u].org == org
    && (forall x | x != u :: x in s.users <==> x in s'.users)
    && (forall x | x != u && x in s.users :: s.users[x] == s'.users[x])
    && (forall x | x != u :: x in s.embeddings <==> x in s'.embeddings)
    && (forall x | x != u && x in s.embeddings :: s.embeddings[x] == s'.embeddings[x])
  }

  lemma OtherTablesSame(s: Store, s': Store, u: UserId, org: OrgId, o: OrgId, dim: nat)
    requires SameButFor(s, s', u, org) && o != org
    ensures Table(s', o, dim) == Table(s, o, dim)
  {
  }

  lemma TableDiffersAt(s: Store, s': Store, u: UserId, org: OrgId, dim: nat)
    requires SameButFor(s, s', u, org)
    ensures Table(s', org, dim) - {u} == Table(s, org, dim) - {u}
  {
  }

  /** From agreement, agreement again as soon as the touched index is right. */
  lemma AgreesAgain(w: World, w': World, u: UserId, org: OrgId, dim: nat)
    requires Agrees(w, dim) && SameButFor(w.store, w'.store, u, org)
    requires forall o | o in w'.loaded && o != org :: o in w.loaded && w'.loaded[o] == w.loaded[o]
    requires org in w'.loaded ==> w'.loaded[org] == Table(w'.store, org, dim)
    ensures Agrees(w', dim)
  {
    forall o | o in w'.loaded && o != org
      ensures w'.loaded[o] == Table(w'.store, o, dim)
    {
      OtherTablesSame(w.store, w'.store, u, org, o, dim);
    }
  }

  lemma TableAfterRegister(s: Store, org: OrgId, u: UserId, v: Vector, dim: nat)
    requires u in s.users && s.users[u] == Account(org, true) && v != [] && |v| == dim
    ensures Table(s.(embeddings := s.embeddings[u := Encode(v)]), org, dim) == Table(s, org, dim)[u := v]
  {
    RoundTripIff(v, dim);
  }

  lemma RegisterAgrees(w: World, org: OrgId, u: UserId, v: Vector, dim: nat)
    requires Agrees(w, dim) && v != [] && |v| == dim
    ensures Agrees(Step(w, Register(org, u, v), dim), dim)
  {
    if u in w.store.users && w.store.users[u] == Account(org, true) {
      TableAfterRegister(w.store, org, u, v, dim);
      var table := Table(w.store.(embeddings := w.store.embeddings[u := Encode(v)]), org, dim);
      assert u in table && table[u] == v && table[u := v] == table;
      AgreesAgain(w, Step(w, Register(org, u, v), dim), u, org, dim);
    }
  }

  lemma DeregisterAgrees(w: World, org: OrgId, u: UserId, dim: nat)
    requires Agrees(w, dim)
    ensures Agrees(Step(w, Deregister(org, u), dim), dim)
  {
    if u in w.store.users && w.store.users[u].org == org {
      var s := w.store.(embeddings := w.store.embeddings - {u});
      TableDiffersAt(w.store, s, u, org, dim);
      assert Table(s, org, dim) == Table(s, org, dim) - {u};
      AgreesAgain(w, Step(w, Deregister(org, u), dim), u, org, dim);
    }
  }

  lemma DeleteUserAgrees(w: World, u: UserId, dim: nat)
    requires Agrees(w, dim)
    ensures Agrees(Step(w, DeleteUser(u), dim), dim)
  {
    if u in w.store.users {
      var org := w.store.users[u].org;
      var s := w.store.(users := w.store.users[u := w.store.users[u].(active := false)]);
      TableDiffersAt(w.store, s, u, org, dim);
      assert Table(s, org, dim) == Table(s, org, dim) - {u};
      if !(w.store.users[u].active && u in w.store.embeddings) {
        assert Table(w.store, org, dim) == Table(w.store, org, dim) - {u};
      }
      AgreesAgain(w, Step(w, DeleteUser(u), dim), u, org, dim);
    }
  }

  lemma CreateUserAgrees(w: World, u: UserId, org: OrgId, dim: nat)
    requires Agrees(w, dim) && (u in w.store.embeddings ==> u in w.store.users)
    ensures Agrees(Step(w, CreateUser(u, org), dim), dim)
  {
    if u !in w.store.users {
      var s := w.store.(users := w.store.users[u := Account(org, true)]);
      forall o | o in w.loaded
        ensures Table(s, o, dim) == Table(w.store, o, dim)
      {
      }
    }
  }

  /** Every embedding belongs to a user (the foreign key). */
  predicate Owned(s: Store) { s.embeddings.Keys <= s.users.Keys }

  lemma StepAgrees(w: World, e: Event, dim: nat)
    requires Agrees(w, dim) && Owned(w.store) && WellSized(e, dim)
    ensures Agrees(Step(w, e, dim), dim) && Owned(Step(w, e, dim).store)
  {
    match e
    case CreateUser(u, org) => CreateUserAgrees(w, u, org, dim);
    case SetOrgActive(org, b) =>
      forall o | o in w.loaded
        ensures Table(Step(w, e, dim).store, o, dim) == Table(w.store, o, dim)
      {
      }
    case Register(org, u, v) => RegisterAgrees(w, org, u, v, dim);
    case Deregister(org, u) => DeregisterAgrees(w, org, u, dim);
    case DeleteUser(u) => DeleteUserAgrees(w, u, dim);
    case _ =>
  }

  /** Over every run the loaded indexes are the table. */
  lemma {:induction false} RunAgrees(w: World, es: seq<Event>, dim: nat)
    requires Agrees(w, dim) && Owned(w.store) && forall e | e in es :: WellSized(e, dim)
    ensures Agrees(Run(w, es, dim), dim)
    decreases |es|
  {
    if es != [] {
      assert es[0] in es;
      StepAgrees(w, es[0], dim);
      RunAgrees(Step(w, es[0], dim), es[1..], dim);
    }
  }

  /** Eager and lazy loading give an active organization the same index, or both give it none. */
  lemma EagerIsLazy(s: Store, org: OrgId, dim: nat)
    requires org in s.activeOrgs
    ensures var eager, lazy := Refreshed(s, dim), Loaded(World(s, map[]), org, dim).loaded;
      && (org in eager <==> org in lazy)
      && (org in eager ==> eager[org] == lazy[org])
  {
  }

  /** An activation change through `update_user` touches the table alone.  From agreement it keeps
      agreement exactly when nothing changed, the index is not loaded, or there is no usable vector. */
  lemma ActivationBreaksExactly(w: World, u: UserId, active: bool, dim: nat)
    requires Agrees(w, dim) && u in w.store.users
    ensures var account := w.store.users[u];
      var after := w.(store := w.store.(users := w.store.users[u := account.(active := active)]));
      Agrees(after, dim) <==>
        || active == account.active
        || account.org !in w.loaded
        || u !in w.store.embeddings || Decode(w.store.embeddings[u], dim).None?
  {
    var account := w.store.users[u];
    var s := w.store.(users := w.store.users[u := account.(active := active)]);
    var before, table := Table(w.store, account.org, dim), Table(s, account.org, dim);
    TableDiffersAt(w.store, s, u, account.org, dim);
    if active == account.active {
      assert s == w.store;
    } else if u in w.store.embeddings && Decode(w.store.embeddings[u], dim).Some? {
      assert u in table <==> u !in before;
      if account.org !in w.loaded { AgreesAgain(w, w.(store := s), u, account.org, dim); }
    } else {
      assert table == table - {u} && before == before - {u};
      AgreesAgain(w, w.(store := s), u, account.org, dim);
    }
  }

  /* ---------- the loops that build the indexes ---------- */

  type Row = (OrgId, UserId, seq<byte>)

  /** Any order in which the join of embeddings, users and organizations may be returned. */
  ghost predicate IsJoin(rows: seq<Row>, s: Store) {
    && (forall i, k | 0 <= i < k < |rows| :: rows[i].1 != rows[k].1)
    && (forall r | r in rows ::
          && r.1 in s.embeddings && s.embeddings[r.1] == r.2 && r.1 in s.users
          && s.users[r.1] == Account(r.0, true) && r.0 in s.activeOrgs)
    && (forall u | u in s.embeddings && u in s.users && s.users[u].active && s.users[u].org in s.activeOrgs ::
          (s.users[u].org, u, s.embeddings[u]) in rows)
  }

  /** The vectors a list of rows holds for one organization. */
  function FacesOf(rows: seq<Row>, org: OrgId, dim: nat): Faces {
    if rows == [] then map[]
    else
      var n := |rows| - 1;
      var faces, v := FacesOf(rows[..n], org, dim), Decode(rows[n].2, dim);
      if rows[n].0 == org && v.Some? then faces[rows[n].1 := v.value] else faces
  }

  /** What one more row adds. */
  lemma FacesOfNext(rows: seq<Row>, i: nat, dim: nat)
    requires i < |rows|
    ensures forall org ::
              FacesOf(rows[..i + 1], org, dim)
              == if rows[i].0 == org && Decode(rows[i].2, dim).Some?
                 then FacesOf(rows[..i], org, dim)[rows[i].1 := Decode(rows[i].2, dim).value]
                 else FacesOf(rows[..i], org, dim)
  {
    assert rows[..i + 1][..i] == rows[..i];
  }

  function PairsMap(pairs: seq<(UserId, Vector)>): Faces {
    if pairs == [] then map[]
    else PairsMap(pairs[..|pairs| - 1])[pairs[|pairs| - 1].0 := pairs[|pairs| - 1].1]
  }

  lemma {:induction false} FacesOfRow(rows: seq<Row>, org: OrgId, dim: nat, u: UserId)
    requires forall i, k | 0 <= i < k < |rows| :: rows[i].1 != rows[k].1
    ensures u in FacesOf(rows, org, dim) <==>
              exists i :: 0 <= i < |rows| && rows[i].0 == org && rows[i].1 == u && Decode(rows[i].2, dim).Some?
    ensures forall i | 0 <= i < |rows| && rows[i].0 == org && rows[i].1 == u && Decode(rows[i].2, dim).Some? ::
              FacesOf(rows, org, dim)[u] == Decode(rows[i].2, dim).value
  {
    if rows != [] {
      var n := |rows| - 1;
      FacesOfRow(rows[..n], org, dim, u);
      var front := rows[..n];
      if i :| 0 <= i < n && front[i].0 == org && front[i].1 == u && Decode(front[i].2, dim).Some? {
        assert rows[i] == front[i];
      }
      forall i | 0 <= i < n
        ensures rows[..n][i] == rows[i]
      {
      }
    }
  }

  lemma JoinGivesTable(rows: seq<Row>, s: Store, org: OrgId, dim: nat)
    requires IsJoin(rows, s) && org in s.activeOrgs
    ensures FacesOf(rows, org, dim) == Table(s, org, dim)
  {
    forall u
      ensures u in FacesOf(rows, org, dim) <==> u in Table(s, org, dim)
      ensures u in Table(s, org, dim) ==> FacesOf(rows, org, dim)[u] == Table(s, org, dim)[u]
    {
      FacesOfRow(rows, org, dim, u);
      if u in Table(s, org, dim) {
        assert (org, u, s.embeddings[u]) in rows;
      }
    }
  }

  lemma OtherRowsGiveNothing(rows: seq<Row>, s: Store, org: OrgId, dim: nat)
    requires IsJoin(rows, s) && org !in s.activeOrgs
    ensures FacesOf(rows, org, dim) == map[]
  {
    forall u
      ensures u !in FacesOf(rows, org, dim)
    {
      FacesOfRow(rows, org, dim, u);
    }
  }

  lemma JoinGivesFaces(rows: seq<Row>, s: Store, org: OrgId, dim: nat)
    requires IsJoin(rows, s)
    ensures FacesOf(rows, org, dim) == if org in s.activeOrgs then Table(s, org, dim) else map[]
  {
    if org in s.activeOrgs { JoinGivesTable(rows, s, org, dim); } else { OtherRowsGiveNothing(rows, s, org, dim); }
  }

  lemma BuiltIsRefreshed(rows: seq<Row>, s: Store, built: map<OrgId, Faces>, dim: nat)
    requires IsJoin(rows, s)
    requires forall org :: org in built <==> FacesOf(rows, org, dim) != map[]
    requires forall org | org in built :: built[org] == FacesOf(rows, org, dim)
    ensures built == Refreshed(s, dim)
  {
    forall org
      ensures org in built <==> org in Refreshed(s, dim)
      ensures org in built ==> built[org] == Refreshed(s, dim)[org]
    {
      JoinGivesFaces(rows, s, org, dim);
    }
  }

  class MatcherRegistry {
    const dim: nat
    var matchers: map<OrgId, Faces>

    constructor (dim: nat)
      ensures this.dim == dim && matchers == map[]
    {
      this.dim, matchers := dim, map[];
    }

    /** The grouping loop of `refresh_all`. */
    method GroupRows(rows: seq<Row>) returns (grouped: map<OrgId, seq<(UserId, Vector)>>, skipped: nat)
      ensures forall org :: org in grouped <==> FacesOf(rows, org, dim) != map[]
      ensures forall org | org in grouped :: PairsMap(grouped[org]) == FacesOf(rows, org, dim)
      ensures skipped == CountUndecodable(rows, dim)
    {
      grouped, skipped := map[], 0;
      for i := 0 to |rows|
        invariant forall org :: org in grouped <==> FacesOf(rows[..i], org, dim) != map[]
        invariant forall org | org in grouped :: PairsMap(grouped[org]) == FacesOf(rows[..i], org, dim)
        invariant skipped == CountUndecodable(rows[..i], dim)
      {
        var (org, user, raw) := rows[i];
        assert rows[..i + 1][..i] == rows[..i];
        FacesOfNext(rows, i, dim);
        var vector := Decode(raw, dim);
        if vector.None? {
          skipped := skipped + 1;
        } else {
          var pairs := if org in grouped then grouped[org] else [];
          var more := pairs + [(user, vector.value)];
          assert more[..|pairs|] == pairs;
          assert user in FacesOf(rows[..i + 1], org, dim);
          grouped := grouped[org := more];
        }
      }
      assert rows[..|rows|] == rows;
    }

    method BuildAll(grouped: map<OrgId, seq<(UserId, Vector)>>) returns (built: map<OrgId, Faces>)
      ensures built.Keys == grouped.Keys
      ensures forall org | org in built :: built[org] == PairsMap(grouped[org])
    {
      built := map[];
      var todo := grouped.Keys;
      while todo != {}
        invariant todo <= grouped.Keys && built.Keys == grouped.Keys - todo
        invariant forall org | org in built :: built[org] == PairsMap(grouped[org])
        decreases |todo|
      {
        var org :| org in todo;
        built := built[org := PairsMap(grouped[org])];
        todo := todo - {org};
      }
    }

    /** Replaces every index by what the rows hold. */
    method RefreshAll(rows: seq<Row>, s: Store)
      requires IsJoin(rows, s)
      modifies this
      ensures matchers == Refreshed(s, dim)
    {
      var grouped, _ := GroupRows(rows);
      var built := BuildAll(grouped);
      BuiltIsRefreshed(rows, s, built, dim);
      matchers := built;
    }

    /** The loop of `_load_org` over the rows of one organization. */
    method LoadOrg(rows: seq<(UserId, seq<byte>)>, s: Store, org: OrgId) returns (matcher: Option<Faces>)
      requires IsOrgJoin(rows, s, org)
      ensures matcher == if Table(s, org, dim) == map[] then None else Some(Table(s, org, dim))
    {
      var pairs: seq<(UserId, Vector)> := [];
      for i := 0 to |rows|
        invariant PairsMap(pairs) == FacesOf(Tagged(rows[..i], org), org, dim)
        invariant pairs == [] <==> FacesOf(Tagged(rows[..i], org), org, dim) == map[]
      {
        assert Tagged(rows[..i + 1], org)[..i] == Tagged(rows[..i], org);
        var vector := Decode(rows[i].1, dim);
        if vector.Some? {
          var more := pairs + [(rows[i].0, vector.value)];
          assert more[..|pairs|] == pairs;
          assert rows[i].0 in PairsMap(more);
          pairs := more;
        }
      }
      assert rows[..|rows|] == rows;
      OrgJoinGivesTable(rows, s, org, dim);
      if pairs == [] { return None; }
      matcher := Some(PairsMap(pairs));
    }

    method GetMatcher(org: OrgId, rows: seq<(UserId, seq<byte>)>, s: Store) returns (matcher: Option<Faces>)
      requires IsOrgJoin(rows, s, org)
      modifies this
      ensures matchers == Loaded(World(s, old(matchers)), org, dim).loaded
      ensures matcher == if org in matchers then Some(matchers[org]) else None
    {
      if org in matchers { return Some(matchers[org]); }
      matcher := LoadOrg(rows, s, org);
      if matcher.Some? {
        matchers := matchers[org := matcher.value];
      }
    }

    method UpsertUser(org: OrgId, user: UserId, vector: Vector, rows: seq<(UserId, seq<byte>)>, s: Store)
      requires IsOrgJoin(rows, s, org)
      modifies this
      ensures matchers == Upsert(World(s, old(matchers)), org, user, vector, dim).loaded
    {
      var matcher := GetMatcher(org, rows, s);
      if matcher.None? {
        matchers := matchers[org := map[]];
      }
      matchers := matchers[org := matchers[org][user := vector]];
    }

    method RemoveUser(org: OrgId, user: UserId, ghost s: Store)
      modifies this
      ensures matchers == RemoveFrom(World(s, old(matchers)), org, user).loaded
    {
      if org in matchers {
        matchers := matchers[org := matchers[org] - {user}];
      }
    }

    method InvalidateOrg(org: OrgId)
      modifies this
      ensures matchers == old(matchers) - {org}
    {
      if org in matchers { matchers := matchers - {org}; }
      assert matchers == old(matchers) - {org};
    }
  }

  function CountUndecodable(rows: seq<Row>, dim: nat): nat {
    if rows == [] then 0
    else CountUndecodable(rows[..|rows| - 1], dim) + if Decode(rows[|rows| - 1].2, dim).None? then 1 else 0
  }

  /** Any order in which the join for one organization may be returned. */
  ghost predicate IsOrgJoin(rows: seq<(UserId, seq<byte>)>, s: Store, org: OrgId) {
    && (forall i, k | 0 <= i < k < |rows| :: rows[i].0 != rows[k].0)
    && (forall r | r in rows ::
          r.0 in s.embeddings && s.embeddings[r.0] == r.1 && r.0 in s.users && s.users[r.0] == Account(org, true))
    && (forall u | u in s.embeddings && u in s.users && s.users[u] == Account(org, true) ::
          (u, s.embeddings[u]) in rows)
  }

  function Tagged(rows: seq<(UserId, seq<byte>)>, org: OrgId): seq<Row> {
    seq(|rows|, i requires 0 <= i < |rows| => (org, rows[i].0, rows[i].1))
  }

  lemma OrgJoinGivesTable(rows: seq<(UserId, seq<byte>)>, s: Store, org: OrgId, dim: nat)
    requires IsOrgJoin(rows, s, org)
    ensures FacesOf(Tagged(rows, org), org, dim) == Table(s, org, dim)
  {
    var tagged := Tagged(rows, org);
    forall u
      ensures u in FacesOf(tagged, org, dim) <==> u in Table(s, org, dim)
      ensures u in Table(s, org, dim) ==> FacesOf(tagged, org, dim)[u] == Table(s, org, dim)[u]
    {
      FacesOfRow(tagged, org, dim, u);
      if u in Table(s, org, dim) {
        var i :| 0 <= i < |rows| && rows[i] == (u, s.embeddings[u]);
        assert tagged[i] == (org, u, s.embeddings[u]);
      }
      if u in FacesOf(tagged, org, dim) {
        var i :| 0 <= i < |tagged| && tagged[i].0 == org && tagged[i].1 == u && Decode(tagged[i].2, dim).Some?;
        assert rows[i] in rows;
      }
    }
  }
}
