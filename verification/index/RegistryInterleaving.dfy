/** The registry with every operation split at its awaits: tenants stay apart even when table
    reads are stale and matcher objects have been replaced meanwhile. */
module RegistryInterleaving {
  import opened Prelude

  type OrgId = int          // names that are only compared
  type UserId = int
  type Vector = seq<int>
  type Faces = map<UserId, Vector>
  type Ref = nat
  type TaskId = nat

  /** A matcher object; `org` is the organization it was made for. */
  datatype Obj = Obj(org: OrgId, faces: Faces)

  /** Users never change organization and are never deleted; everything else in the tables may. */
  datatype Store = Store(orgOf: map<UserId, OrgId>, active: set<UserId>, vectors: map<UserId, Vector>)

  /** A task between two awaits: `refresh_all` with its rows read; `_load_org` likewise;
      `upsert_user` before it has a matcher, and holding one. */
  datatype Task =
    | RefreshRead(snapshot: map<OrgId, Faces>)
    | LoadRead(org: OrgId, rows: Faces)
    | Upserting(org: OrgId, user: UserId, vector: Vector)
    | Holding(ref: Ref, user: UserId, vector: Vector)

  datatype World = World(store: Store, heap: map<Ref, Obj>, matchers: map<OrgId, Ref>, tasks: map<TaskId, Task>)

  function Table(s: Store, org: OrgId): Faces {
    map u | u in s.vectors && u in s.active && u in s.orgOf && s.orgOf[u] == org :: s.vectors[u]
  }

  datatype Act =
    | WriteTables(store: Store)
    | ReadAll(task: TaskId, orgs: set<OrgId>)
    | SwapAll(task: TaskId, refs: map<OrgId, Ref>)
    | ReadOrg(task: TaskId, org: OrgId)
    | StoreOrg(task: TaskId, ref: Ref)
    | BeginUpsert(task: TaskId, org: OrgId, user: UserId, vector: Vector)
    | GotMatcher(task: TaskId)
    | MadeMatcher(task: TaskId, ref: Ref)
    | FinishUpsert(task: TaskId)
    | RemoveUser(org: OrgId, user: UserId)
    | Invalidate(org: OrgId)

  /** New objects are new; tables only gain users; an upsert is for a user of its organization
      (the check the registration endpoint makes before it starts). */
  predicate May(w: World, a: Act) {
    match a
    case WriteTables(s) => forall u | u in w.store.orgOf :: u in s.orgOf && s.orgOf[u] == w.store.orgOf[u]
    case ReadAll(t, _) => t !in w.tasks
    case SwapAll(t, refs) =>
      && t in w.tasks && w.tasks[t].RefreshRead? && refs.Keys == w.tasks[t].snapshot.Keys
      && (forall o | o in refs :: refs[o] !in w.heap)
      && (forall o, p | o in refs && p in refs && o != p :: refs[o] != refs[p])
    case ReadOrg(t, org) => t !in w.tasks && org !in w.matchers
    case StoreOrg(t, ref) => t in w.tasks && w.tasks[t].LoadRead? && ref !in w.heap
    case BeginUpsert(t, org, user, _) => t !in w.tasks && user in w.store.orgOf && w.store.orgOf[user] == org
    case GotMatcher(t) => t in w.tasks && w.tasks[t].Upserting? && w.tasks[t].org in w.matchers
    case MadeMatcher(t, ref) => t in w.tasks && w.tasks[t].Upserting? && ref !in w.heap
    case FinishUpsert(t) => t in w.tasks && w.tasks[t].Holding? && w.tasks[t].ref in w.heap
    case RemoveUser(org, _) => org in w.matchers ==> w.matchers[org] in w.heap
    case Invalidate(_) => true
  }

  function NewObjects(rows: map<OrgId, Faces>, refs: map<OrgId, Ref>): map<Ref, Obj>
    requires refs.Keys == rows.Keys
    requires forall o, p | o in refs && p in refs && o != p :: refs[o] != refs[p]
  {
    map o | o in refs :: refs[o] := Obj(o, rows[o])
  }

  function Do(w: World, a: Act): World
    requires May(w, a)
  {
    match a
    case WriteTables(s) => w.(store := s)
    case ReadAll(t, orgs) =>
      w.(tasks := w.tasks[t := RefreshRead(map o | o in orgs && Table(w.store, o) != map[] :: Table(w.store, o))])
    case SwapAll(t, refs) =>
      w.(heap := w.heap + NewObjects(w.tasks[t].snapshot, refs), matchers := refs, tasks := w.tasks - {t})
    case ReadOrg(t, org) => w.(tasks := w.tasks[t := LoadRead(org, Table(w.store, org))])
    case StoreOrg(t, ref) =>
      var task := w.tasks[t];
      if task.rows == map[] then w.(tasks := w.tasks - {t})
      else w.(heap := w.heap[ref := Obj(task.org, task.rows)], matchers := w.matchers[task.org := ref],
              tasks := w.tasks - {t})
    case BeginUpsert(t, org, user, v) => w.(tasks := w.tasks[t := Upserting(org, user, v)])
    case GotMatcher(t) =>
      var task := w.tasks[t];
      w.(tasks := w.tasks[t := Holding(w.matchers[task.org], task.user, task.vector)])
    case MadeMatcher(t, ref) =>
      var task := w.tasks[t];
      w.(heap := w.heap[ref := Obj(task.org, map[])], matchers := w.matchers[task.org := ref],
         tasks := w.tasks[t := Holding(ref, task.user, task.vector)])
    case FinishUpsert(t) =>
      var task := w.tasks[t];
      var obj := w.heap[task.ref];
      w.(heap := w.heap[task.ref := obj.(faces := obj.faces[task.user := task.vector])], tasks := w.tasks - {t})
    case RemoveUser(org, user) =>
      if org !in w.matchers then w
      else
        var obj := w.heap[w.matchers[org]];
        w.(heap := w.heap[w.matchers[org] := obj.(faces := obj.faces - {user})])
    case Invalidate(org) => w.(matchers := w.matchers - {org})
  }

  /* ---------- the invariant ---------- */

  predicate UserOf(s: Store, u: UserId, org: OrgId) { u in s.orgOf && s.orgOf[u] == org }

  ghost predicate FacesOk(s: Store, faces: Faces, org: OrgId) {
    forall u | u in faces :: UserOf(s, u, org)
  }

  ghost predicate TaskOk(s: Store, heap: map<Ref, Obj>, t: Task) {
    match t
    case RefreshRead(rows) => forall o | o in rows :: FacesOk(s, rows[o], o)
    case LoadRead(org, rows) => FacesOk(s, rows, org)
    case Upserting(org, user, _) => UserOf(s, user, org)
    case Holding(ref, user, _) => ref in heap && UserOf(s, user, heap[ref].org)
  }

  ghost predicate HeapOk(s: Store, heap: map<Ref, Obj>) {
    forall r | r in heap :: FacesOk(s, heap[r].faces, heap[r].org)
  }

  ghost predicate MatchersOk(heap: map<Ref, Obj>, matchers: map<OrgId, Ref>) {
    forall o | o in matchers :: matchers[o] in heap && heap[matchers[o]].org == o
  }

  ghost predicate Isolated(w: World) {
    && HeapOk(w.store, w.heap) && MatchersOk(w.heap, w.matchers)
    && forall t | t in w.tasks :: TaskOk(w.store, w.heap, w.tasks[t])
  }

  lemma GrowthKeepsTask(s: Store, heap: map<Ref, Obj>, s': Store, heap': map<Ref, Obj>, t: Task)
    requires TaskOk(s, heap, t)
    requires forall u | u in s.orgOf :: u in s'.orgOf && s'.orgOf[u] == s.orgOf[u]
    requires forall r | r in heap :: r in heap' && heap'[r].org == heap[r].org
    ensures TaskOk(s', heap', t)
  {
    if t.RefreshRead? {
      forall o | o in t.snapshot
        ensures FacesOk(s', t.snapshot[o], o)
      {
        assert FacesOk(s, t.snapshot[o], o);
      }
    }
  }

  lemma SwapKeepsIsolated(w: World, t: TaskId, refs: map<OrgId, Ref>)
    requires Isolated(w) && May(w, SwapAll(t, refs))
    ensures Isolated(Do(w, SwapAll(t, refs)))
  {
    var w' := Do(w, SwapAll(t, refs));
    var made := NewObjects(w.tasks[t].snapshot, refs);
    forall o | o in refs
      ensures refs[o] in made && made[refs[o]] == Obj(o, w.tasks[t].snapshot[o])
    {
    }
    assert TaskOk(w.store, w.heap, w.tasks[t]);
    assert HeapOk(w.store, w'.heap);
    forall x | x in w'.tasks
      ensures TaskOk(w'.store, w'.heap, w'.tasks[x])
    {
      GrowthKeepsTask(w.store, w.heap, w'.store, w'.heap, w.tasks[x]);
    }
  }

  lemma ActKeepsIsolated(w: World, a: Act)
    requires Isolated(w) && May(w, a)
    ensures Isolated(Do(w, a))
  {
    if a.SwapAll? {
      SwapKeepsIsolated(w, a.task, a.refs);
    } else {
      var w' := Do(w, a);
      forall x | x in w'.tasks && x in w.tasks && w'.tasks[x] == w.tasks[x]
        ensures TaskOk(w'.store, w'.heap, w'.tasks[x])
      {
        GrowthKeepsTask(w.store, w.heap, w'.store, w'.heap, w.tasks[x]);
      }
    }
  }

  predicate MayAll(w: World, acts: seq<Act>)
    decreases |acts|
  {
    acts == [] || (May(w, acts[0]) && MayAll(Do(w, acts[0]), acts[1..]))
  }

  function DoAll(w: World, acts: seq<Act>): World
    requires MayAll(w, acts)
    decreases |acts|
  {
    if acts == [] then w else DoAll(Do(w, acts[0]), acts[1..])
  }

  /** In every interleaving from any isolated state, every id in an organization's index belongs to
      a user of that organization, in the objects in use and in those already replaced. */
  lemma {:induction false} TenantsStayApart(w: World, acts: seq<Act>)
    requires Isolated(w) && MayAll(w, acts)
    ensures var later := DoAll(w, acts);
      && Isolated(later)
      && (forall o, u | o in later.matchers && u in later.heap[later.matchers[o]].faces :: UserOf(later.store, u, o))
    decreases |acts|
  {
    if acts != [] {
      ActKeepsIsolated(w, acts[0]);
      TenantsStayApart(Do(w, acts[0]), acts[1..]);
    }
  }

  lemma EmptyIsIsolated(s: Store)
    ensures Isolated(World(s, map[], map[], map[]))
  {
  }

  /** So it is from the start of the server on, whatever the tables hold then. */
  lemma FromEmptyRegistry(s: Store, acts: seq<Act>)
    requires MayAll(World(s, map[], map[], map[]), acts)
    ensures var later := DoAll(World(s, map[], map[], map[]), acts);
      forall o, u | o in later.matchers :: later.matchers[o] in later.heap
        && (u in later.heap[later.matchers[o]].faces ==> UserOf(later.store, u, o))
  {
    EmptyIsIsolated(s);
    TenantsStayApart(World(s, map[], map[], map[]), acts);
  }

  /* ---------- without interleaving ---------- */

  /** Every organization has an object, and none shares it. */
  ghost predicate ResolvedIn(heap: map<Ref, Obj>, matchers: map<OrgId, Ref>) {
    && (forall o | o in matchers :: matchers[o] in heap)
    && (forall o, p | o in matchers && p in matchers && o != p :: matchers[o] != matchers[p])
  }

  ghost function LoadedOf(heap: map<Ref, Obj>, matchers: map<OrgId, Ref>): map<OrgId, Faces>
    requires ResolvedIn(heap, matchers)
  {
    map o | o in matchers :: heap[matchers[o]].faces
  }

  ghost predicate Resolved(w: World) { ResolvedIn(w.heap, w.matchers) }

  /** What the registry answers with. */
  ghost function Loaded(w: World): map<OrgId, Faces>
    requires Resolved(w)
  {
    LoadedOf(w.heap, w.matchers)
  }

  /** A new object for one organization. */
  lemma PutObject(heap: map<Ref, Obj>, matchers: map<OrgId, Ref>, org: OrgId, ref: Ref, faces: Faces)
    requires ResolvedIn(heap, matchers) && ref !in heap
    ensures ResolvedIn(heap[ref := Obj(org, faces)], matchers[org := ref])
    ensures LoadedOf(heap[ref := Obj(org, faces)], matchers[org := ref]) == LoadedOf(heap, matchers)[org := faces]
  {
    var heap', matchers' := heap[ref := Obj(org, faces)], matchers[org := ref];
    var got, expected := LoadedOf(heap', matchers'), LoadedOf(heap, matchers)[org := faces];
    assert got.Keys == expected.Keys;
    forall o | o in got
      ensures got[o] == expected[o]
    {
      if o != org { assert matchers'[o] == matchers[o] != ref; }
    }
  }

  /** The object of one organization changes its faces. */
  lemma ChangeFaces(heap: map<Ref, Obj>, matchers: map<OrgId, Ref>, org: OrgId, faces: Faces)
    requires ResolvedIn(heap, matchers) && org in matchers
    ensures var heap' := heap[matchers[org] := heap[matchers[org]].(faces := faces)];
      ResolvedIn(heap', matchers) && LoadedOf(heap', matchers) == LoadedOf(heap, matchers)[org := faces]
  {
    var heap' := heap[matchers[org] := heap[matchers[org]].(faces := faces)];
    var got, expected := LoadedOf(heap', matchers), LoadedOf(heap, matchers)[org := faces];
    assert got.Keys == expected.Keys;
    forall o | o in got
      ensures got[o] == expected[o]
    {
      if o != org { assert matchers[o] != matchers[org]; }
    }
  }

  lemma MadeFor(rows: map<OrgId, Faces>, refs: map<OrgId, Ref>, o: OrgId)
    requires refs.Keys == rows.Keys && o in refs
    requires forall o, p | o in refs && p in refs && o != p :: refs[o] != refs[p]
    ensures refs[o] in NewObjects(rows, refs) && NewObjects(rows, refs)[refs[o]] == Obj(o, rows[o])
  {
  }

  /** A swap on its own puts what was read in place of everything. */
  lemma SwapLoads(w: World, t: TaskId, refs: map<OrgId, Ref>)
    requires May(w, SwapAll(t, refs))
    ensures Resolved(Do(w, SwapAll(t, refs)))
    ensures Loaded(Do(w, SwapAll(t, refs))) == w.tasks[t].snapshot
  {
    forall o | o in refs
      ensures refs[o] in Do(w, SwapAll(t, refs)).heap
      ensures Do(w, SwapAll(t, refs)).heap[refs[o]] == Obj(o, w.tasks[t].snapshot[o])
    {
      MadeFor(w.tasks[t].snapshot, refs, o);
    }
  }

  /** A refresh that nobody interrupts loads the tables of the organizations it reads. */
  lemma RefreshAlone(w: World, t: TaskId, orgs: set<OrgId>, refs: map<OrgId, Ref>)
    requires May(w, ReadAll(t, orgs)) && May(Do(w, ReadAll(t, orgs)), SwapAll(t, refs))
    ensures var later := Do(Do(w, ReadAll(t, orgs)), SwapAll(t, refs));
      && Resolved(later) && later.store == w.store
      && Loaded(later) == map o | o in orgs && Table(w.store, o) != map[] :: Table(w.store, o)
  {
    SwapLoads(Do(w, ReadAll(t, orgs)), t, refs);
  }

  /** Loading one organization on its own gives its table, or nothing when that is empty. */
  lemma LoadAlone(w: World, t: TaskId, org: OrgId, ref: Ref)
    requires Resolved(w) && May(w, ReadOrg(t, org)) && May(Do(w, ReadOrg(t, org)), StoreOrg(t, ref))
    ensures var later := Do(Do(w, ReadOrg(t, org)), StoreOrg(t, ref));
      && Resolved(later) && later.store == w.store
      && Loaded(later) == if Table(w.store, org) == map[] then Loaded(w) else Loaded(w)[org := Table(w.store, org)]
  {
    var table := Table(w.store, org);
    if table != map[] { PutObject(w.heap, w.matchers, org, ref, table); }
  }

  lemma FinishSets(w: World, t: TaskId, org: OrgId)
    requires Resolved(w) && t in w.tasks && w.tasks[t].Holding?
    requires org in w.matchers && w.tasks[t].ref == w.matchers[org]
    ensures var later := Do(w, FinishUpsert(t));
      && Resolved(later) && later.store == w.store
      && Loaded(later) == Loaded(w)[org := Loaded(w)[org][w.tasks[t].user := w.tasks[t].vector]]
  {
    var task := w.tasks[t];
    ChangeFaces(w.heap, w.matchers, org, w.heap[task.ref].faces[task.user := task.vector]);
  }

  lemma MadeIsEmpty(w: World, t: TaskId, ref: Ref)
    requires Resolved(w) && May(w, MadeMatcher(t, ref))
    ensures var later := Do(w, MadeMatcher(t, ref));
      && Resolved(later) && later.store == w.store && Loaded(later) == Loaded(w)[w.tasks[t].org := map[]]
      && w.tasks[t].org in later.matchers
      && later.tasks[t] == Holding(later.matchers[w.tasks[t].org], w.tasks[t].user, w.tasks[t].vector)
  {
    PutObject(w.heap, w.matchers, w.tasks[t].org, ref, map[]);
  }

  lemma UpsertHeld(w: World, t: TaskId, org: OrgId, user: UserId, v: Vector)
    requires Resolved(w) && t in w.tasks && w.tasks[t] == Upserting(org, user, v) && org in w.matchers
    ensures May(w, GotMatcher(t)) && May(Do(w, GotMatcher(t)), FinishUpsert(t))
    ensures var later := Do(Do(w, GotMatcher(t)), FinishUpsert(t));
      Resolved(later) && later.store == w.store && Loaded(later) == Loaded(w)[org := Loaded(w)[org][user := v]]
  {
    FinishSets(Do(w, GotMatcher(t)), t, org);
  }

  lemma UpsertMade(w: World, t: TaskId, org: OrgId, user: UserId, v: Vector, ref: Ref)
    requires Resolved(w) && t in w.tasks && w.tasks[t] == Upserting(org, user, v) && ref !in w.heap
    ensures May(w, MadeMatcher(t, ref)) && May(Do(w, MadeMatcher(t, ref)), FinishUpsert(t))
    ensures var later := Do(Do(w, MadeMatcher(t, ref)), FinishUpsert(t));
      Resolved(later) && later.store == w.store && Loaded(later) == Loaded(w)[org := map[user := v]]
  {
    MadeIsEmpty(w, t, ref);
    FinishSets(Do(w, MadeMatcher(t, ref)), t, org);
  }

  /** An upsert on its own sets the user's vector in the index that is there, or in a new one. */
  lemma UpsertAlone(w: World, t: TaskId, org: OrgId, user: UserId, v: Vector, ref: Ref)
    requires Resolved(w) && May(w, BeginUpsert(t, org, user, v)) && ref !in w.heap
    ensures var begun := Do(w, BeginUpsert(t, org, user, v));
      if org in w.matchers then
        && May(begun, GotMatcher(t)) && May(Do(begun, GotMatcher(t)), FinishUpsert(t))
        && var later := Do(Do(begun, GotMatcher(t)), FinishUpsert(t));
           Resolved(later) && later.store == w.store && Loaded(later) == Loaded(w)[org := Loaded(w)[org][user := v]]
      else
        && May(begun, MadeMatcher(t, ref)) && May(Do(begun, MadeMatcher(t, ref)), FinishUpsert(t))
        && var later := Do(Do(begun, MadeMatcher(t, ref)), FinishUpsert(t));
           Resolved(later) && later.store == w.store && Loaded(later) == Loaded(w)[org := map[user := v]]
  {
    var begun := Do(w, BeginUpsert(t, org, user, v));
    assert Loaded(begun) == Loaded(w);
    if org in w.matchers {
      UpsertHeld(begun, t, org, user, v);
    } else {
      UpsertMade(begun, t, org, user, v, ref);
    }
  }

  /** Removing and invalidating take effect at once, and in one index only. */
  lemma RemovalAlone(w: World, org: OrgId, user: UserId)
    requires Resolved(w)
    ensures May(w, RemoveUser(org, user)) && Resolved(Do(w, RemoveUser(org, user)))
    ensures Loaded(Do(w, RemoveUser(org, user)))
            == if org in w.matchers then Loaded(w)[org := Loaded(w)[org] - {user}] else Loaded(w)
  {
    if org in w.matchers {
      ChangeFaces(w.heap, w.matchers, org, w.heap[w.matchers[org]].faces - {user});
    }
  }

  lemma InvalidationAlone(w: World, org: OrgId)
    requires Resolved(w)
    ensures Resolved(Do(w, Invalidate(org))) && Loaded(Do(w, Invalidate(org))) == Loaded(w) - {org}
  {
  }
}
