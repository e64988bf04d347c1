/** Recognition end to end: events change the tables, the registry keeps one matcher per organization,
    and a search in that matcher answers for the table. */
module Recognition {
  import opened Prelude
  import opened Vectors
  import opened VectorCodec
  import opened Registry
  import opened RegistryEffects
  import FaceIndex
  import opened FaceSearch

  type Indexes = map<OrgId, FaceIndex.Index>

  /** The configured dimension, what a stored word is worth, and the order in which the database
      returns the rows of its n-th reading. */
  datatype Env = Env(dim: nat, value: Word -> real, arrange: (nat, Faces) -> seq<UserId>)

  ghost predicate Enumerates(order: seq<UserId>, faces: Faces) {
    Distinct(order) && forall u :: u in order <==> u in faces
  }

  ghost predicate Arranges(env: Env) {
    forall n, faces :: Enumerates(env.arrange(n, faces), faces)
  }

  function Reals(v: Vector, value: Word -> real): Vec {
    seq(|v|, i requires 0 <= i < |v| => value(v[i]))
  }

  function RealFaces(faces: Faces, value: Word -> real): map<UserId, Vec> {
    map u | u in faces :: Reals(faces[u], value)
  }

  /* ---------- the registry with its matchers ---------- */

  function VectorsOf(order: seq<UserId>, faces: Faces, value: Word -> real): seq<Vec>
    requires forall u | u in order :: u in faces
  {
    seq(|order|, i requires 0 <= i < |order| => Reals(faces[order[i]], value))
  }

  /** A new matcher over the rows in the order they came. */
  function BuildOf(order: seq<UserId>, faces: Faces, value: Word -> real, data: map<UserId, string>): FaceIndex.Index
    requires forall u | u in order :: u in faces
  {
    FaceIndex.Build(FaceIndex.Empty(false), VectorsOf(order, faces, value), order, data, false).value
  }

  ghost function RefreshedIx(env: Env, n: nat, ixs: Indexes, s: Store): Indexes
    requires Arranges(env)
  {
    map org | org in Refreshed(s, env.dim) ::
      BuildOf(env.arrange(n, Table(s, org, env.dim)), Table(s, org, env.dim), env.value,
              if org in ixs then ixs[org].data else map[])
  }

  ghost function LoadedIx(env: Env, n: nat, ixs: Indexes, s: Store, org: OrgId): Indexes
    requires Arranges(env)
  {
    var table := Table(s, org, env.dim);
    if org in ixs || table == map[] then ixs
    else ixs[org := BuildOf(env.arrange(n, table), table, env.value, map[])]
  }

  ghost function UpsertIx(env: Env, n: nat, ixs: Indexes, s: Store, org: OrgId, u: UserId, v: Vector): Indexes
    requires Arranges(env) && AllSound(ixs)
  {
    var ready := LoadedIx(env, n, ixs, s, org);
    var ix := if org in ready then ready[org] else FaceIndex.Empty(false);
    ready[org := FaceIndex.Update(ix, u, Reals(v, env.value), None, false)]
  }

  ghost function RemoveIx(ixs: Indexes, org: OrgId, u: UserId): Indexes
    requires AllSound(ixs)
  {
    if org in ixs then ixs[org := FaceIndex.Remove(ixs[org], u, false)] else ixs
  }

  ghost predicate AllSound(ixs: Indexes) {
    forall org | org in ixs :: FaceIndex.Sound(ixs[org])
  }

  /** What an event does to the matchers; `w` is the world before it. */
  ghost function StepIx(env: Env, n: nat, ixs: Indexes, w: World, e: Event): Indexes
    requires Arranges(env) && AllSound(ixs)
  {
    var s := Step(w, e, env.dim).store;
    match e
    case CreateUser(_, _) => ixs
    case SetOrgActive(_, _) => ixs
    case Register(org, u, v) =>
      if u !in w.store.users || w.store.users[u] != Account(org, true) then ixs else UpsertIx(env, n, ixs, s, org, u, v)
    case Deregister(org, u) =>
      if u !in w.store.users || w.store.users[u].org != org then ixs else RemoveIx(ixs, org, u)
    case DeleteUser(u) =>
      if u in w.store.users && w.store.users[u].active && u in w.store.embeddings
      then RemoveIx(ixs, w.store.users[u].org, u) else ixs
    case RefreshAll => RefreshedIx(env, n, ixs, s)
    case GetMatcher(org) => LoadedIx(env, n, ixs, s, org)
    case Invalidate(org) => ixs - {org}
    case Shutdown => map[]
  }

  /** A refresh keeps the notes of the matcher it replaces. */
  lemma RefreshKeepsNotes(env: Env, n: nat, ixs: Indexes, s: Store, org: OrgId)
    requires Arranges(env) && org in RefreshedIx(env, n, ixs, s)
    ensures RefreshedIx(env, n, ixs, s)[org].data == if org in ixs then ixs[org].data else map[]
  {
  }

  /* ---------- every matcher is the map the registry stands for ---------- */

  ghost predicate IsIndexOf(ix: FaceIndex.Index, faces: Faces, value: Word -> real) {
    FaceIndex.Sound(ix) && !ix.useFaiss && ix.faiss.None? && FaceIndex.AsMap(ix) == RealFaces(faces, value)
  }

  ghost predicate Mirrors(env: Env, ixs: Indexes, loaded: map<OrgId, Faces>) {
    && (forall org :: org in ixs <==> org in loaded)
    && forall org | org in ixs :: IsIndexOf(ixs[org], loaded[org], env.value)
  }

  lemma EntriesOf(order: seq<UserId>, faces: Faces, value: Word -> real)
    requires Enumerates(order, faces)
    ensures RealFaces(faces, value).Keys == set u | u in order
    ensures forall k | 0 <= k < |order| :: RealFaces(faces, value)[order[k]] == VectorsOf(order, faces, value)[k]
  {
  }

  lemma BuildMirrors(order: seq<UserId>, faces: Faces, value: Word -> real, data: map<UserId, string>)
    requires Enumerates(order, faces)
    ensures IsIndexOf(BuildOf(order, faces, value, data), faces, value)
  {
    FaceIndex.BuildIsMapOf(FaceIndex.Empty(false), VectorsOf(order, faces, value), order, data, false);
    EntriesOf(order, faces, value);
    FaceIndex.SameEntries(order, VectorsOf(order, faces, value),
                          FaceIndex.AsMap(BuildOf(order, faces, value, data)), RealFaces(faces, value));
  }

  /** Without FAISS there is never a FAISS index. */
  lemma StaysNumpy(ix: FaceIndex.Index, u: UserId, v: Vec)
    requires FaceIndex.Sound(ix) && !ix.useFaiss && ix.faiss.None?
    ensures var after := FaceIndex.Update(ix, u, v, None, false); !after.useFaiss && after.faiss.None?
    ensures var after := FaceIndex.Remove(ix, u, false); !after.useFaiss && after.faiss.None?
  {
  }

  lemma RealFacesWith(faces: Faces, value: Word -> real, u: UserId, v: Vector)
    ensures RealFaces(faces[u := v], value) == RealFaces(faces, value)[u := Reals(v, value)]
    ensures RealFaces(faces - {u}, value) == RealFaces(faces, value) - {u}
  {
  }

  lemma UpdateMirrors(ix: FaceIndex.Index, faces: Faces, value: Word -> real, u: UserId, v: Vector)
    requires IsIndexOf(ix, faces, value)
    ensures IsIndexOf(FaceIndex.Update(ix, u, Reals(v, value), None, false), faces[u := v], value)
  {
    StaysNumpy(ix, u, Reals(v, value));
    FaceIndex.UpdateIsMapUpdate(ix, u, Reals(v, value), None, false);
    RealFacesWith(faces, value, u, v);
  }

  lemma RemoveMirrors(ix: FaceIndex.Index, faces: Faces, value: Word -> real, u: UserId)
    requires IsIndexOf(ix, faces, value)
    ensures IsIndexOf(FaceIndex.Remove(ix, u, false), faces - {u}, value)
  {
    StaysNumpy(ix, u, []);
    FaceIndex.RemoveIsMapRemoval(ix, u, false);
    RealFacesWith(faces, value, u, []);
  }

  lemma LoadedMirrors(env: Env, n: nat, ixs: Indexes, w: World, org: OrgId)
    requires Arranges(env) && Mirrors(env, ixs, w.loaded)
    ensures Mirrors(env, LoadedIx(env, n, ixs, w.store, org), Loaded(w, org, env.dim).loaded)
  {
    var table := Table(w.store, org, env.dim);
    BuildMirrors(env.arrange(n, table), table, env.value, map[]);
  }

  lemma UpsertMirrors(env: Env, n: nat, ixs: Indexes, w: World, org: OrgId, u: UserId, v: Vector)
    requires Arranges(env) && Mirrors(env, ixs, w.loaded)
    ensures AllSound(ixs)
    ensures Mirrors(env, UpsertIx(env, n, ixs, w.store, org, u, v), Upsert(w, org, u, v, env.dim).loaded)
  {
    LoadedMirrors(env, n, ixs, w, org);
    var ready, faces := LoadedIx(env, n, ixs, w.store, org), Loaded(w, org, env.dim).loaded;
    UpdateMirrors(if org in ready then ready[org] else FaceIndex.Empty(false),
                  if org in faces then faces[org] else map[], env.value, u, v);
  }

  lemma RemoveIxMirrors(env: Env, ixs: Indexes, w: World, org: OrgId, u: UserId)
    requires Mirrors(env, ixs, w.loaded)
    ensures AllSound(ixs) && Mirrors(env, RemoveIx(ixs, org, u), RemoveFrom(w, org, u).loaded)
  {
    if org in ixs { RemoveMirrors(ixs[org], w.loaded[org], env.value, u); }
  }

  lemma RefreshedMirrors(env: Env, n: nat, ixs: Indexes, s: Store)
    requires Arranges(env)
    ensures Mirrors(env, RefreshedIx(env, n, ixs, s), Refreshed(s, env.dim))
  {
    forall org | org in Refreshed(s, env.dim)
      ensures IsIndexOf(RefreshedIx(env, n, ixs, s)[org], Refreshed(s, env.dim)[org], env.value)
    {
      var table := Table(s, org, env.dim);
      BuildMirrors(env.arrange(n, table), table, env.value, if org in ixs then ixs[org].data else map[]);
    }
  }

  lemma RegisterMirrors(env: Env, n: nat, ixs: Indexes, w: World, org: OrgId, u: UserId, v: Vector)
    requires Arranges(env) && Mirrors(env, ixs, w.loaded)
    ensures AllSound(ixs)
    ensures Mirrors(env, StepIx(env, n, ixs, w, Register(org, u, v)), Step(w, Register(org, u, v), env.dim).loaded)
  {
    if u in w.store.users && w.store.users[u] == Account(org, true) {
      UpsertMirrors(env, n, ixs, w.(store := w.store.(embeddings := w.store.embeddings[u := Encode(v)])), org, u, v);
    }
  }

  lemma RemovalMirrors(env: Env, n: nat, ixs: Indexes, w: World, e: Event)
    requires Arranges(env) && Mirrors(env, ixs, w.loaded) && (e.Deregister? || e.DeleteUser?)
    ensures AllSound(ixs) && Mirrors(env, StepIx(env, n, ixs, w, e), Step(w, e, env.dim).loaded)
  {
    var after := w.(store := Step(w, e, env.dim).store);
    match e
    case Deregister(org, u) => RemoveIxMirrors(env, ixs, after, org, u);
    case DeleteUser(u) =>
      if u in w.store.users { RemoveIxMirrors(env, ixs, after, w.store.users[u].org, u); }
  }

  lemma StepMirrors(env: Env, n: nat, ixs: Indexes, w: World, e: Event)
    requires Arranges(env) && Mirrors(env, ixs, w.loaded)
    ensures AllSound(ixs) && Mirrors(env, StepIx(env, n, ixs, w, e), Step(w, e, env.dim).loaded)
  {
    match e
    case Register(org, u, v) => RegisterMirrors(env, n, ixs, w, org, u, v);
    case Deregister(_, _) => RemovalMirrors(env, n, ixs, w, e);
    case DeleteUser(_) => RemovalMirrors(env, n, ixs, w, e);
    case RefreshAll => RefreshedMirrors(env, n, ixs, w.store);
    case GetMatcher(org) => LoadedMirrors(env, n, ixs, w, org);
    case _ =>
  }

  /* ---------- every run ---------- */

  ghost function RunIx(env: Env, ixs: Indexes, w: World, es: seq<Event>): Indexes
    requires Arranges(env) && Mirrors(env, ixs, w.loaded)
    decreases |es|
  {
    if es == [] then ixs
    else
      StepMirrors(env, |es|, ixs, w, es[0]);
      RunIx(env, StepIx(env, |es|, ixs, w, es[0]), Step(w, es[0], env.dim), es[1..])
  }

  lemma {:induction false} RunMirrors(env: Env, ixs: Indexes, w: World, es: seq<Event>)
    requires Arranges(env) && Mirrors(env, ixs, w.loaded)
    ensures Mirrors(env, RunIx(env, ixs, w, es), Run(w, es, env.dim).loaded)
    decreases |es|
  {
    if es != [] {
      StepMirrors(env, |es|, ixs, w, es[0]);
      RunMirrors(env, StepIx(env, |es|, ixs, w, es[0]), Step(w, es[0], env.dim), es[1..]);
    }
  }

  /* ---------- the answer ---------- */

  predicate AllOfLength(faces: Faces, n: nat) {
    forall u | u in faces :: |faces[u]| == n
  }

  function Score(faces: Faces, u: UserId, value: Word -> real, query: Vec): real
    requires u in faces && |faces[u]| == |query|
  {
    Dot(Reals(faces[u], value), query)
  }

  /** The definition over the table: nobody reaches the threshold, or somebody who does and whom nobody surpasses. */
  ghost predicate IsBestFace(faces: Faces, value: Word -> real, query: Vec, threshold: real, r: Option<(UserId, real)>)
    requires AllOfLength(faces, |query|)
  {
    match r
    case None => forall u | u in faces :: Score(faces, u, value, query) < threshold
    case Some(hit) =>
      && hit.0 in faces && hit.1 == Score(faces, hit.0, value, query) && hit.1 >= threshold
      && forall u | u in faces :: Score(faces, u, value, query) <= hit.1
  }

  lemma RowsAreFaces(ix: FaceIndex.Index, faces: Faces, value: Word -> real)
    requires IsIndexOf(ix, faces, value)
    ensures forall k | 0 <= k < |ix.ids| ::
              ix.ids[k] in faces && FaceIndex.Rows(ix)[k] == Reals(faces[ix.ids[k]], value)
    ensures forall u | u in faces :: u in ix.ids
  {
    forall k | 0 <= k < |ix.ids|
      ensures ix.ids[k] in faces && FaceIndex.Rows(ix)[k] == Reals(faces[ix.ids[k]], value)
    {
      FaceIndex.IndexOfAt(ix.ids, k);
      assert ix.ids[k] in FaceIndex.AsMap(ix);
    }
    forall u | u in faces
      ensures u in ix.ids
    {
      assert u in RealFaces(faces, value);
    }
  }

  lemma ScoresAreFaceScores(ix: FaceIndex.Index, faces: Faces, value: Word -> real, query: Vec)
    requires IsIndexOf(ix, faces, value) && AllOfLength(faces, |query|)
    ensures SameLength(FaceIndex.Rows(ix), query)
    ensures forall k | 0 <= k < |ix.ids| ::
              ix.ids[k] in faces && Scores(FaceIndex.Rows(ix), query)[k] == Score(faces, ix.ids[k], value, query)
  {
    RowsAreFaces(ix, faces, value);
  }

  /** The best of a list of scored ids that lists the faces. */
  lemma BestOfListed(ids: seq<UserId>, scores: seq<real>, faces: Faces, value: Word -> real, query: Vec,
                     threshold: real, r: Option<(UserId, real)>)
    requires |ids| == |scores| && AllOfLength(faces, |query|)
    requires forall k | 0 <= k < |ids| :: ids[k] in faces && scores[k] == Score(faces, ids[k], value, query)
    requires forall u | u in faces :: u in ids
    requires IsBest(ids, scores, threshold, r)
    ensures IsBestFace(faces, value, query, threshold, r)
  {
    match r
    case None =>
      forall u | u in faces
        ensures Score(faces, u, value, query) < threshold
      {
        var k :| 0 <= k < |ids| && ids[k] == u;
        assert scores[k] == Score(faces, ids[k], value, query);
      }
    case Some(hit) =>
      var h :| 0 <= h < |ids| && AllScores(ids, scores)[h] == hit;
      assert scores[h] == Score(faces, ids[h], value, query);
      forall u | u in faces
        ensures Score(faces, u, value, query) <= hit.1
      {
        var k :| 0 <= k < |ids| && ids[k] == u;
        assert scores[k] == Score(faces, ids[k], value, query);
      }
  }

  /** The best match of an index is the best match of the map it stands for. */
  lemma BestIsBestFace(ix: FaceIndex.Index, faces: Faces, value: Word -> real, query: Vec,
                       threshold: real, r: Option<(UserId, real)>)
    requires IsIndexOf(ix, faces, value) && AllOfLength(faces, |query|) && SameLength(FaceIndex.Rows(ix), query)
    requires IsBest(ix.ids, Scores(FaceIndex.Rows(ix), query), threshold, r)
    ensures IsBestFace(faces, value, query, threshold, r)
  {
    RowsAreFaces(ix, faces, value);
    ScoresAreFaceScores(ix, faces, value, query);
    BestOfListed(ix.ids, Scores(FaceIndex.Rows(ix), query), faces, value, query, threshold, r);
  }

  /** The loaded index and the table are one, and missing only where the table is empty. */
  lemma IndexAnswersForTable(env: Env, w: World, es: seq<Event>, org: OrgId)
    requires Arranges(env) && w.loaded == map[] && Owned(w.store) && forall e | e in es :: WellSized(e, env.dim)
    ensures var later := Run(w, es, env.dim);
      var table := Table(later.store, org, env.dim);
      && AllOfLength(table, env.dim)
      && var ixs := LoadedIx(env, 0, RunIx(env, map[], w, es), later.store, org);
         (org in ixs ==> IsIndexOf(ixs[org], table, env.value)) && (org !in ixs ==> table == map[])
  {
    var later := Run(w, es, env.dim);
    RunAgrees(w, es, env.dim);
    RunMirrors(env, map[], w, es);
    LoadedMirrors(env, 0, RunIx(env, map[], w, es), later, org);
  }

  /** Whoever was deregistered is not named until registered again; whoever was deleted, never. */
  lemma GoneIsNotNamed(env: Env, w: World, org: OrgId, u: UserId, e: Event, es: seq<Event>, query: Vec,
                       threshold: real, hit: Option<(UserId, real)>)
    requires Agrees(w, env.dim) && u in w.store.users
    requires (e == Deregister(w.store.users[u].org, u) && NotRegistered(es, u)) || e == DeleteUser(u)
    requires var table := Table(Run(w, [e] + es, env.dim).store, org, env.dim);
      AllOfLength(table, |query|) && IsBestFace(table, env.value, query, threshold, hit)
    ensures hit.Some? ==> hit.value.0 != u
  {
    assert ([e] + es)[1..] == es;
    if e.DeleteUser? {
      DeletedIsGone(Step(w, e, env.dim), es, env.dim, u);
    } else {
      DeregisterTakesEffect(w, w.store.users[u].org, u, env.dim);
      GoneUntilRegistered(Step(w, e, env.dim), es, env.dim, u);
    }
  }

  /** `recognize` from `get_matcher` on, after any run of the server: the answer is a best match over the
      table of the organization, whatever order rows and scores came in, and the user it names passes
      the check that follows. */
  method Recognize(ghost env: Env, ghost w: World, ghost es: seq<Event>, org: OrgId, indexes: Indexes,
                   query: Vec, order: seq<nat>, threshold: real)
    returns (hit: Option<(UserId, real)>)
    requires Arranges(env) && w.loaded == map[] && Owned(w.store) && forall e | e in es :: WellSized(e, env.dim)
    requires indexes == LoadedIx(env, 0, RunIx(env, map[], w, es), Run(w, es, env.dim).store, org)
    requires |query| == env.dim
    requires org in indexes && SameLength(FaceIndex.Rows(indexes[org]), query) ==>
               IsArgsort(order, Scores(FaceIndex.Rows(indexes[org]), query))
    ensures var s := Run(w, es, env.dim).store;
      && AllOfLength(Table(s, org, env.dim), |query|)
      && IsBestFace(Table(s, org, env.dim), env.value, query, threshold, hit)
      && (hit.Some? ==> hit.value.0 in s.users && s.users[hit.value.0] == Account(org, true))
  {
    IndexAnswersForTable(env, w, es, org);
    if org !in indexes { return None; }
    ghost var table := Table(Run(w, es, env.dim).store, org, env.dim);
    var ix := indexes[org];
    RowsAreFaces(ix, table, env.value);
    var r := FaceSearch.Match(ix, query, order, [], threshold, 1);
    BestIsBestFace(ix, table, env.value, query, threshold, r.hit);
    hit := r.hit;
  }
}
