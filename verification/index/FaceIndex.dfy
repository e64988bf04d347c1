/** One organization's matching index: parallel lists of ids and vectors, and the row list of a
    FAISS index when there is one. */
module FaceIndex {
  import opened Prelude
  import opened Vectors

  type Id = string
  type Data = string

  /** `rows` is None before the first vector and after a clear; `faiss` is None until one was built. */
  datatype Index = Index(
    useFaiss: bool, rows: Option<seq<Vec>>, ids: seq<Id>, data: map<Id, Data>, faiss: Option<seq<Vec>>)

  function Empty(useFaiss: bool): Index { Index(useFaiss, None, [], map[], None) }

  function Rows(ix: Index): seq<Vec> { if ix.rows.Some? then ix.rows.value else [] }

  /** Python's `list.index`. */
  function IndexOf<K(==)>(ids: seq<K>, id: K): (k: nat)
    requires id in ids
    ensures k < |ids| && ids[k] == id && id !in ids[..k]
  {
    if ids[0] == id then 0 else
      var k := 1 + IndexOf(ids[1..], id);
      assert ids[..k] == [ids[0]] + ids[1..][..k - 1];
      k
  }

  function Without<T>(s: seq<T>, k: nat): seq<T>
    requires k < |s|
  {
    s[..k] + s[k + 1..]
  }

  /* ---------- the operations ---------- */

  /** `_build_faiss_index`; a failed import switches FAISS off. */
  function Rebuilt(ix: Index, installed: bool): Index {
    if installed then ix.(faiss := Some(Rows(ix))) else ix.(useFaiss := false)
  }

  function RebuiltIfNeeded(ix: Index, installed: bool): Index {
    if ix.useFaiss && |Rows(ix)| > 0 then Rebuilt(ix, installed) else ix
  }

  /** None is the ValueError for lists of different lengths. */
  function Build(ix: Index, vectors: seq<Vec>, ids: seq<Id>, data: map<Id, Data>, installed: bool): Option<Index> {
    if |vectors| != |ids| then None
    else
      var built := ix.(rows := Some(vectors), ids := ids, data := data);
      Some(if ix.useFaiss then Rebuilt(built, installed) else built)
  }

  function Noted(data: map<Id, Data>, id: Id, note: Option<Data>): map<Id, Data> {
    if note.Some? then data[id := note.value] else data
  }

  function Add(ix: Index, id: Id, v: Vec, note: Option<Data>): Index {
    ix.(rows := Some(Rows(ix) + [v]), ids := ix.ids + [id], data := Noted(ix.data, id, note),
        faiss := if ix.useFaiss && ix.faiss.Some? then Some(ix.faiss.value + [v]) else ix.faiss)
  }

  function Update(ix: Index, id: Id, v: Vec, note: Option<Data>, installed: bool): Index
    requires |Rows(ix)| == |ix.ids|
  {
    if id in ix.ids then
      var k := IndexOf(ix.ids, id);
      RebuiltIfNeeded(ix.(rows := Some(Rows(ix)[k := v]), data := Noted(ix.data, id, note)), installed)
    else Add(ix, id, v, note)
  }

  function Remove(ix: Index, id: Id, installed: bool): Index
    requires |Rows(ix)| == |ix.ids|
  {
    if id !in ix.ids then ix
    else
      var k := IndexOf(ix.ids, id);
      var rest := ix.(rows := Some(Without(Rows(ix), k)), ids := Without(ix.ids, k), data := ix.data - {id});
      RebuiltIfNeeded(rest, installed)
  }

  /** `reset` empties an existing FAISS index. */
  function Clear(ix: Index): Index {
    ix.(rows := None, ids := [], data := map[], faiss := if ix.faiss.Some? then Some([]) else None)
  }

  /* ---------- the index is a finite map ---------- */

  predicate Sound(ix: Index) { |Rows(ix)| == |ix.ids| && Distinct(ix.ids) }

  function Zip<K(==)>(ids: seq<K>, vectors: seq<Vec>): map<K, Vec>
    requires |vectors| == |ids|
  {
    map id | id in ids :: vectors[IndexOf(ids, id)]
  }

  function AsMap(ix: Index): map<Id, Vec>
    requires |Rows(ix)| == |ix.ids|
  {
    Zip(ix.ids, Rows(ix))
  }

  lemma IndexOfAt<K>(ids: seq<K>, k: nat)
    requires Distinct(ids) && k < |ids|
    ensures IndexOf(ids, ids[k]) == k
  {
  }

  lemma IndexInAppend<K>(ids: seq<K>, id: K, x: K)
    requires Distinct(ids) && id !in ids
    ensures Distinct(ids + [id]) && IndexOf(ids + [id], id) == |ids|
    ensures x in ids ==> IndexOf(ids + [id], x) == IndexOf(ids, x)
  {
    var more := ids + [id];
    IndexOfAt(more, |ids|);
    if x in ids {
      assert more[IndexOf(ids, x)] == x;
      IndexOfAt(more, IndexOf(ids, x));
    }
  }

  lemma ZipAppend<K>(ids: seq<K>, vectors: seq<Vec>, id: K, v: Vec)
    requires Distinct(ids) && |vectors| == |ids| && id !in ids
    ensures Zip(ids + [id], vectors + [v]) == Zip(ids, vectors)[id := v]
  {
    forall x | x in ids + [id]
      ensures Zip(ids + [id], vectors + [v])[x] == Zip(ids, vectors)[id := v][x]
    {
      IndexInAppend(ids, id, x);
    }
  }

  lemma AddIsMapUpdate(ix: Index, id: Id, v: Vec, note: Option<Data>)
    requires Sound(ix) && id !in ix.ids
    ensures Sound(Add(ix, id, v, note)) && AsMap(Add(ix, id, v, note)) == AsMap(ix)[id := v]
  {
    ZipAppend(ix.ids, Rows(ix), id, v);
  }

  /** Adding is safe exactly for an id that is not there yet. */
  lemma AddIsSoundIff(ix: Index, id: Id, v: Vec, note: Option<Data>)
    requires Sound(ix)
    ensures Sound(Add(ix, id, v, note)) <==> id !in ix.ids
  {
    var after := Add(ix, id, v, note);
    if id in ix.ids {
      assert after.ids[IndexOf(ix.ids, id)] == after.ids[|ix.ids|];
    }
  }

  lemma ZipWithRow<K>(ids: seq<K>, vectors: seq<Vec>, k: nat, v: Vec)
    requires Distinct(ids) && |vectors| == |ids| && k < |ids|
    ensures Zip(ids, vectors[k := v]) == Zip(ids, vectors)[ids[k] := v]
  {
    forall x | x in ids
      ensures Zip(ids, vectors[k := v])[x] == Zip(ids, vectors)[ids[k] := v][x]
    {
      if x == ids[k] { IndexOfAt(ids, k); }
    }
  }

  lemma UpdateIsMapUpdate(ix: Index, id: Id, v: Vec, note: Option<Data>, installed: bool)
    requires Sound(ix)
    ensures var after := Update(ix, id, v, note, installed);
      Sound(after) && AsMap(after) == AsMap(ix)[id := v]
  {
    if id in ix.ids {
      ZipWithRow(ix.ids, Rows(ix), IndexOf(ix.ids, id), v);
    } else {
      AddIsMapUpdate(ix, id, v, note);
    }
  }

  lemma WithoutAt<T>(s: seq<T>, k: nat)
    requires k < |s|
    ensures |Without(s, k)| == |s| - 1
    ensures forall i | 0 <= i < |s| - 1 :: Without(s, k)[i] == s[if i < k then i else i + 1]
  {
  }

  lemma WithoutKeepsDistinct<K>(ids: seq<K>, k: nat)
    requires Distinct(ids) && k < |ids|
    ensures Distinct(Without(ids, k)) && (forall x | x in Without(ids, k) :: x in ids && x != ids[k])
  {
    WithoutAt(ids, k);
  }

  /** Where an element that stays is found afterwards. */
  lemma IndexInWithout<K>(ids: seq<K>, k: nat, x: K)
    requires Distinct(ids) && k < |ids| && x in ids && x != ids[k]
    ensures x in Without(ids, k)
    ensures var i := IndexOf(ids, x); IndexOf(Without(ids, k), x) == if i < k then i else i - 1
  {
    var i := IndexOf(ids, x);
    var i' := if i < k then i else i - 1;
    var rest := Without(ids, k);
    WithoutAt(ids, k);
    WithoutKeepsDistinct(ids, k);
    assert rest[i'] == x;
    IndexOfAt(rest, i');
  }

  lemma ZipWithoutAt<K>(ids: seq<K>, vectors: seq<Vec>, k: nat, x: K)
    requires Distinct(ids) && |vectors| == |ids| && k < |ids| && x in ids && x != ids[k]
    ensures |Without(vectors, k)| == |Without(ids, k)| && x in Without(ids, k)
    ensures Without(vectors, k)[IndexOf(Without(ids, k), x)] == vectors[IndexOf(ids, x)]
  {
    IndexInWithout(ids, k, x);
    WithoutAt(ids, k);
    WithoutAt(vectors, k);
  }

  lemma ZipWithout<K>(ids: seq<K>, vectors: seq<Vec>, k: nat)
    requires Distinct(ids) && |vectors| == |ids| && k < |ids|
    ensures Zip(Without(ids, k), Without(vectors, k)) == Zip(ids, vectors) - {ids[k]}
  {
    WithoutAt(ids, k);
    WithoutAt(vectors, k);
    WithoutKeepsDistinct(ids, k);
    var rest, before := Zip(Without(ids, k), Without(vectors, k)), Zip(ids, vectors);
    forall x | x in ids && x != ids[k]
      ensures x in rest && rest[x] == before[x]
    {
      ZipWithoutAt(ids, vectors, k, x);
    }
    assert rest.Keys == before.Keys - {ids[k]};
  }

  lemma RemoveIsMapRemoval(ix: Index, id: Id, installed: bool)
    requires Sound(ix)
    ensures Sound(Remove(ix, id, installed)) && AsMap(Remove(ix, id, installed)) == AsMap(ix) - {id}
  {
    if id in ix.ids {
      WithoutKeepsDistinct(ix.ids, IndexOf(ix.ids, id));
      ZipWithout(ix.ids, Rows(ix), IndexOf(ix.ids, id));
    }
  }

  lemma BuildIsMapOf(ix: Index, vectors: seq<Vec>, ids: seq<Id>, data: map<Id, Data>, installed: bool)
    ensures Build(ix, vectors, ids, data, installed).None? <==> |vectors| != |ids|
    ensures |vectors| == |ids| && Distinct(ids) ==>
              var after := Build(ix, vectors, ids, data, installed).value;
              && Sound(after) && AsMap(after).Keys == set id | id in ids
              && forall k | 0 <= k < |ids| :: AsMap(after)[ids[k]] == vectors[k]
  {
    if |vectors| == |ids| && Distinct(ids) {
      forall k | 0 <= k < |ids|
        ensures IndexOf(ids, ids[k]) == k
      {
        IndexOfAt(ids, k);
      }
    }
  }

  lemma ClearIsEmptyMap(ix: Index)
    ensures Sound(Clear(ix)) && AsMap(Clear(ix)) == map[]
  {
  }

  /* ---------- runs ---------- */

  datatype Op =
    | DoBuild(vectors: seq<Vec>, ids: seq<Id>)
    | DoUpdate(id: Id, v: Vec)
    | DoAdd(id: Id, v: Vec)
    | DoRemove(id: Id)
    | DoClear

  /** Building with distinct ids, adding a new one; anything else at any time. */
  predicate Possible(ix: Index, op: Op) {
    && (op.DoBuild? ==> |op.vectors| == |op.ids| && Distinct(op.ids))
    && (op.DoAdd? ==> op.id !in ix.ids)
  }

  function Apply(ix: Index, op: Op, installed: bool): Index
    requires Sound(ix) && Possible(ix, op)
  {
    match op
    case DoBuild(vectors, ids) => Build(ix, vectors, ids, map[], installed).value
    case DoUpdate(id, v) => Update(ix, id, v, None, installed)
    case DoAdd(id, v) => Add(ix, id, v, None)
    case DoRemove(id) => Remove(ix, id, installed)
    case DoClear => Clear(ix)
  }

  /** A FAISS index exists only where FAISS is in use. */
  predicate FaissInUse(ix: Index, installed: bool) { ix.faiss.Some? ==> ix.useFaiss && installed }

  lemma ApplyKeepsSound(ix: Index, op: Op, installed: bool)
    requires Sound(ix) && Possible(ix, op) && FaissInUse(ix, installed)
    ensures Sound(Apply(ix, op, installed)) && FaissInUse(Apply(ix, op, installed), installed)
  {
    match op
    case DoBuild(vectors, ids) => BuildIsMapOf(ix, vectors, ids, map[], installed);
    case DoUpdate(id, v) => UpdateIsMapUpdate(ix, id, v, None, installed);
    case DoAdd(id, v) => AddIsMapUpdate(ix, id, v, None);
    case DoRemove(id) => RemoveIsMapRemoval(ix, id, installed);
    case DoClear => ClearIsEmptyMap(ix);
  }

  predicate Runs(ix: Index, ops: seq<Op>, installed: bool)
    requires Sound(ix) && FaissInUse(ix, installed)
    decreases |ops|
  {
    ops == [] ||
    (Possible(ix, ops[0]) &&
     (ApplyKeepsSound(ix, ops[0], installed);
      Runs(Apply(ix, ops[0], installed), ops[1..], installed)))
  }

  function ApplyAll(ix: Index, ops: seq<Op>, installed: bool): Index
    requires Sound(ix) && FaissInUse(ix, installed) && Runs(ix, ops, installed)
    decreases |ops|
  {
    if ops == [] then ix else
      ApplyKeepsSound(ix, ops[0], installed);
      ApplyAll(Apply(ix, ops[0], installed), ops[1..], installed)
  }

  /** Where FAISS is wanted and can be imported the first build makes it, and nothing takes it away;
      where the import fails FAISS is switched off. */
  lemma FaissComesAndStays(ix: Index, op: Op, installed: bool)
    requires Sound(ix) && Possible(ix, op) && ix.useFaiss
    ensures var after := Apply(ix, op, installed);
      && (installed ==> after.useFaiss && (op.DoBuild? || ix.faiss.Some? ==> after.faiss.Some?))
      && (installed && op.DoBuild? ==> after.faiss == Some(op.vectors))
      && (!installed && op.DoBuild? ==> !after.useFaiss && after.faiss == ix.faiss)
  {
  }

  /** Notes go with their user: set when given, kept otherwise, dropped with the user; nobody else's change. */
  lemma NotesFollow(ix: Index, id: Id, v: Vec, note: Option<Data>, installed: bool, x: Id)
    requires Sound(ix)
    ensures var updated, removed := Update(ix, id, v, note, installed).data, Remove(ix, id, installed).data;
      && (note.Some? ==> id in updated && updated[id] == note.value)
      && (note.None? || x != id ==> (x in updated <==> x in ix.data) && (x in ix.data ==> updated[x] == ix.data[x]))
      && (id in ix.ids ==> id !in removed)
      && (id !in ix.ids || x != id ==> (x in removed <==> x in ix.data) && (x in ix.data ==> removed[x] == ix.data[x]))
    ensures Clear(ix).data == map[]
  {
  }

  /** A build replaces the notes by the ones given. */
  lemma BuildTakesNotes(ix: Index, vectors: seq<Vec>, ids: seq<Id>, data: map<Id, Data>, installed: bool)
    requires |vectors| == |ids|
    ensures Build(ix, vectors, ids, data, installed).value.data == data
  {
  }

  /** Where FAISS is off nothing touches its index but a clear. */
  lemma OffLeavesFaiss(ix: Index, id: Id, v: Vec, note: Option<Data>, installed: bool)
    requires Sound(ix) && !ix.useFaiss
    ensures Add(ix, id, v, note).faiss == ix.faiss
    ensures Update(ix, id, v, note, installed).faiss == ix.faiss && Remove(ix, id, installed).faiss == ix.faiss
  {
  }

  /** Removing an unknown user changes nothing. */
  lemma RemovingNobody(ix: Index, id: Id, installed: bool)
    requires Sound(ix) && id !in ix.ids
    ensures Remove(ix, id, installed) == ix
  {
  }

  /* ---------- a run is a run of map operations ---------- */

  /** The pairs of two lists, entered one after the other. */
  function MapOf<K(==)>(ids: seq<K>, vectors: seq<Vec>): map<K, Vec>
    requires |vectors| == |ids|
  {
    if ids == [] then map[]
    else
      var n := |ids| - 1;
      MapOf(ids[..n], vectors[..n])[ids[n] := vectors[n]]
  }

  lemma {:induction false} MapOfDistinct<K>(ids: seq<K>, vectors: seq<Vec>)
    requires |vectors| == |ids| && Distinct(ids)
    ensures MapOf(ids, vectors).Keys == (set id | id in ids)
    ensures forall k | 0 <= k < |ids| :: MapOf(ids, vectors)[ids[k]] == vectors[k]
  {
    if ids != [] {
      var n := |ids| - 1;
      MapOfDistinct(ids[..n], vectors[..n]);
      assert ids == ids[..n] + [ids[n]];
      forall k | 0 <= k < n
        ensures MapOf(ids, vectors)[ids[k]] == vectors[k]
      {
        assert ids[..n][k] == ids[k] && vectors[..n][k] == vectors[k];
      }
    }
  }

  function MapStep(m: map<Id, Vec>, op: Op): map<Id, Vec> {
    match op
    case DoBuild(vectors, ids) => if |vectors| == |ids| then MapOf(ids, vectors) else m
    case DoUpdate(id, v) => m[id := v]
    case DoAdd(id, v) => m[id := v]
    case DoRemove(id) => m - {id}
    case DoClear => map[]
  }

  function MapRun(m: map<Id, Vec>, ops: seq<Op>): map<Id, Vec>
    decreases |ops|
  {
    if ops == [] then m else MapRun(MapStep(m, ops[0]), ops[1..])
  }

  lemma SameEntries<K>(ids: seq<K>, vectors: seq<Vec>, m: map<K, Vec>, m': map<K, Vec>)
    requires |vectors| == |ids| && m.Keys == m'.Keys == set id | id in ids
    requires forall k | 0 <= k < |ids| :: m[ids[k]] == vectors[k] && m'[ids[k]] == vectors[k]
    ensures m == m'
  {
    forall id | id in m
      ensures m[id] == m'[id]
    {
      var k :| 0 <= k < |ids| && ids[k] == id;
      assert m[ids[k]] == vectors[k];
    }
  }

  lemma BuildIsMapStep(ix: Index, vectors: seq<Vec>, ids: seq<Id>, installed: bool)
    requires |vectors| == |ids| && Distinct(ids)
    ensures AsMap(Build(ix, vectors, ids, map[], installed).value) == MapOf(ids, vectors)
  {
    BuildIsMapOf(ix, vectors, ids, map[], installed);
    MapOfDistinct(ids, vectors);
    SameEntries(ids, vectors, AsMap(Build(ix, vectors, ids, map[], installed).value), MapOf(ids, vectors));
  }

  lemma ApplyIsMapStep(ix: Index, op: Op, installed: bool)
    requires Sound(ix) && Possible(ix, op) && FaissInUse(ix, installed)
    ensures Sound(Apply(ix, op, installed)) && AsMap(Apply(ix, op, installed)) == MapStep(AsMap(ix), op)
  {
    ApplyKeepsSound(ix, op, installed);
    match op
    case DoBuild(vectors, ids) => BuildIsMapStep(ix, vectors, ids, installed);
    case DoUpdate(id, v) => UpdateIsMapUpdate(ix, id, v, None, installed);
    case DoAdd(id, v) => AddIsMapUpdate(ix, id, v, None);
    case DoRemove(id) => RemoveIsMapRemoval(ix, id, installed);
    case DoClear => ClearIsEmptyMap(ix);
  }

  /** Every run of the matcher is the run of the same operations on a finite map. */
  lemma {:induction false} RunIsMapRun(ix: Index, ops: seq<Op>, installed: bool)
    requires Sound(ix) && FaissInUse(ix, installed) && Runs(ix, ops, installed)
    ensures Sound(ApplyAll(ix, ops, installed)) && AsMap(ApplyAll(ix, ops, installed)) == MapRun(AsMap(ix), ops)
    decreases |ops|
  {
    if ops != [] {
      ApplyKeepsSound(ix, ops[0], installed);
      ApplyIsMapStep(ix, ops[0], installed);
      RunIsMapRun(Apply(ix, ops[0], installed), ops[1..], installed);
    }
  }

  /* ---------- when the FAISS rows are the matrix rows ---------- */

  predicate FaissAligned(ix: Index) { ix.faiss.Some? ==> ix.faiss.value == Rows(ix) }

  /** The removal that skips the rebuild. */
  predicate RemovesLastUser(ix: Index, op: Op) {
    op.DoRemove? && ix.ids == [op.id] && ix.faiss.Some?
  }

  /** One operation keeps the two in step exactly when it does not remove the last user. */
  lemma AlignmentLostExactly(ix: Index, op: Op, installed: bool)
    requires Sound(ix) && Possible(ix, op) && FaissInUse(ix, installed) && FaissAligned(ix)
    ensures FaissAligned(Apply(ix, op, installed)) <==> !RemovesLastUser(ix, op)
  {
    if op.DoRemove? && op.id in ix.ids && |ix.ids| == 1 {
      assert ix.ids == [op.id];
    }
  }

  predicate KeepsSomeone(ix: Index, ops: seq<Op>, installed: bool)
    requires Sound(ix) && FaissInUse(ix, installed) && Runs(ix, ops, installed)
    decreases |ops|
  {
    ops == [] ||
    (!RemovesLastUser(ix, ops[0]) &&
     (ApplyKeepsSound(ix, ops[0], installed);
      KeepsSomeone(Apply(ix, ops[0], installed), ops[1..], installed)))
  }

  /** In every run that never removes the last user, the FAISS rows are the matrix rows. */
  lemma {:induction false} RunsStayAligned(ix: Index, ops: seq<Op>, installed: bool)
    requires Sound(ix) && FaissInUse(ix, installed) && FaissAligned(ix)
    requires Runs(ix, ops, installed) && KeepsSomeone(ix, ops, installed)
    ensures Sound(ApplyAll(ix, ops, installed)) && FaissAligned(ApplyAll(ix, ops, installed))
    decreases |ops|
  {
    if ops != [] {
      ApplyKeepsSound(ix, ops[0], installed);
      AlignmentLostExactly(ix, ops[0], installed);
      RunsStayAligned(Apply(ix, ops[0], installed), ops[1..], installed);
    }
  }

  /* ---------- the class ---------- */

  class Matcher {
    const installed: bool        // whether the faiss package can be imported
    var useFaiss: bool
    var embeddings: Option<seq<Vec>>
    var userIds: seq<Id>
    var userData: map<Id, Data>
    var faissIndex: Option<seq<Vec>>

    ghost function State(): Index
      reads this
    {
      Index(useFaiss, embeddings, userIds, userData, faissIndex)
    }

    constructor (useFaiss: bool, installed: bool)
      ensures State() == Empty(useFaiss) && this.installed == installed
    {
      this.installed, this.useFaiss := installed, useFaiss;
      embeddings, userIds, userData, faissIndex := None, [], map[], None;
    }

    method BuildFaissIndex()
      requires embeddings.Some?
      modifies this`faissIndex, this`useFaiss
      ensures State() == Rebuilt(old(State()), installed)
    {
      if installed {
        faissIndex := Some([]);
        faissIndex := Some(faissIndex.value + embeddings.value);
        assert [] + embeddings.value == embeddings.value;
      } else {
        useFaiss := false;
      }
    }

    method RebuildIndexIfNeeded()
      requires embeddings.Some?
      modifies this`faissIndex, this`useFaiss
      ensures State() == RebuiltIfNeeded(old(State()), installed)
    {
      if useFaiss && |embeddings.value| > 0 {
        BuildFaissIndex();
      }
    }

    /** Fails for lists of different lengths, changing nothing. */
    method BuildIndex(vectors: seq<Vec>, ids: seq<Id>, data: map<Id, Data>) returns (ok: bool)
      modifies this
      ensures ok <==> |vectors| == |ids|
      ensures ok ==> Some(State()) == Build(old(State()), vectors, ids, data, installed)
      ensures !ok ==> State() == old(State())
    {
      ok := |vectors| == |ids|;
      if ok {
        embeddings := Some(vectors);
        userIds := ids;
        userData := data;
        if useFaiss { BuildFaissIndex(); }
      }
    }

    method AddUser(id: Id, v: Vec, note: Option<Data>)
      modifies this
      ensures State() == Add(old(State()), id, v, note)
    {
      if embeddings.None? {
        embeddings := Some([v]);
        assert [] + [v] == [v];
      } else {
        embeddings := Some(embeddings.value + [v]);
      }
      userIds := userIds + [id];
      if note.Some? { userData := userData[id := note.value]; }
      if useFaiss && faissIndex.Some? {
        faissIndex := Some(faissIndex.value + [v]);
      }
    }

    method UpdateEmbedding(id: Id, v: Vec, note: Option<Data>)
      requires Sound(State())
      modifies this
      ensures State() == Update(old(State()), id, v, note, installed)
    {
      if id in userIds {
        var k := IndexOf(userIds, id);
        embeddings := Some(embeddings.value[k := v]);
        if note.Some? { userData := userData[id := note.value]; }
        RebuildIndexIfNeeded();
      } else {
        AddUser(id, v, note);
      }
    }

    method RemoveUser(id: Id) returns (found: bool)
      requires Sound(State())
      modifies this
      ensures State() == Remove(old(State()), id, installed) && found == (id in old(userIds))
    {
      if id !in userIds { return false; }
      var k := IndexOf(userIds, id);
      embeddings := Some(Without(embeddings.value, k));
      userIds := Without(userIds, k);
      if id in userData { userData := userData - {id}; }
      assert userData == old(userData) - {id};
      RebuildIndexIfNeeded();
      found := true;
    }

    method ClearAll()
      modifies this
      ensures State() == Clear(old(State()))
    {
      embeddings := None;
      userIds := [];
      userData := map[];
      if faissIndex.Some? { faissIndex := Some([]); }
    }
  }
}
