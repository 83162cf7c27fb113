/** What replaying a log keeps: well-formed tables, conserved dependency counts, and complete references. */
module RelationalRuns {
  import opened Optional
  import opened RelationalModel

  // ---------- Well-formed tables ----------

  lemma {:induction false} OfKindIds(ids: seq<Id>, kinds: seq<Kind>, n: nat, k: Kind, bound: nat)
    requires n <= |ids| && n <= |kinds| && forall i :: 0 <= i < n ==> ids[i] < bound
    ensures forall i :: 0 <= i < |OfKind(ids, kinds, n, k)| ==> OfKind(ids, kinds, n, k)[i] < bound
  {
    if n > 0 {
      OfKindIds(ids, kinds, n - 1, k, bound);
    }
  }

  /** Versions only name rows that stay. */
  lemma VersionStaysOk(db: Db, next: Db, v: Version)
    requires VersionOk(db, v) && |db.packages| <= |next.packages| && |db.deps.rows| <= |next.deps.rows|
    ensures VersionOk(next, v)
  {
  }

  lemma CreateVersionOk(db: Db, e: Entry, v: Semver, data: VersionData)
    requires DbOk(db) && ReplayCreateVersion(db, e, v, data).Some?
    ensures DbOk(ReplayCreateVersion(db, e, v, data).value)
  {
    hide DepTableOk, VersionOk, OfKind, Extends, AllUnique;
    var next, news := ReplayCreateVersion(db, e, v, data).value, AllNewDeps(db.names, data);
    var (deps, ids) := UpsertAll(db.deps, news, |news|);
    var row := next.versions[|db.versions|];
    NewRowOk(next, db.names[e.package], v, data, ids, e);
    RowsGrow(db.deps, deps);
    forall w: Id | w < |db.versions| ensures VersionOk(next, next.versions[w]) {
      VersionStaysOk(db, next, db.versions[w]);
    }
  }

  lemma RowsGrow(t: DepTable, u: DepTable)
    requires Extends(t, u)
    ensures |t.rows| <= |u.rows|
  {
  }

  lemma NewRowOk(db: Db, package: Id, v: Semver, data: VersionData, ids: seq<Id>, e: Entry)
    requires |ids| == |AllKinds(data)| && package < |db.packages|
    requires forall i :: 0 <= i < |ids| ==> ids[i] < |db.deps.rows|
    ensures VersionOk(db, NewVersionRow(package, v, data, ids, e.seqId, e.entryId))
  {
    var row := NewVersionRow(package, v, data, ids, e.seqId, e.entryId);
    forall k ensures InRows(db.deps.rows, row.Deps(k)) {
      OfKindIds(ids, AllKinds(data), |ids|, k, |db.deps.rows|);
    }
  }

  /** Changing the state, history or metadata of one version, and counts, keeps the tables well-formed. */
  lemma VersionChangeOk(db: Db, id: Id, row: Version, deps: DepTable)
    requires DbOk(db) && id < |db.versions|
    requires row == db.versions[id].(state := row.state, history := row.history, extra := row.extra)
    requires DepTableOk(deps) && |db.deps.rows| <= |deps.rows|
    ensures DbOk(db.(deps := deps, versions := db.versions[id := row]))
  {
    hide DepTableOk;
    var next := db.(deps := deps, versions := db.versions[id := row]);
    assert forall k :: row.Deps(k) == db.versions[id].Deps(k);
    forall w: Id | w < |db.versions| ensures VersionOk(next, next.versions[w]) {
      VersionStaysOk(db, next, db.versions[w]);
    }
  }

  lemma PatchOk(t: DepTable, name: Name, id: Id)
    requires DepTableOk(t)
    ensures DepTableOk(t.(rows := Patched(t.rows, name, id)))
  {
  }

  lemma RecountGrows(db: Db, id: Id, c: int)
    requires DepTableOk(db.deps) && id < |db.versions| && VersionOk(db, db.versions[id])
    ensures DepTableOk(Recount(db.deps, db.versions[id], c))
    ensures |db.deps.rows| <= |Recount(db.deps, db.versions[id], c).rows|
  {
    hide DepTableOk;
    RecountExtends(db.deps, db.versions[id], c);
  }

  lemma UpdateVersionOk(db: Db, e: Entry, v: Semver, data: VersionData)
    requires DbOk(db) && ReplayUpdateVersion(db, e, v, data).Some?
    ensures DbOk(ReplayUpdateVersion(db, e, v, data).value)
  {
    hide DepTableOk, VersionOk, SameVersion, Recount, Extends;
    var next, id := ReplayUpdateVersion(db, e, v, data).value, FindVersion(db, e, v).value;
    RecountGrows(db, id, 1);
    VersionChangeOk(db, id, next.versions[id], next.deps);
  }

  lemma DeleteVersionOk(db: Db, e: Entry, v: Semver)
    requires DbOk(db) && ReplayDeleteVersion(db, e, v).Some?
    ensures DbOk(ReplayDeleteVersion(db, e, v).value)
  {
    hide DepTableOk, VersionOk, Recount, Extends;
    var next, id := ReplayDeleteVersion(db, e, v).value, FindVersion(db, e, v).value;
    RecountGrows(db, id, -1);
    VersionChangeOk(db, id, next.versions[id], next.deps);
  }

  lemma PackagesOk(db: Db, e: Entry)
    requires DbOk(db) && (e.instr.CreatePackage? || e.instr.UpdatePackage? || e.instr.PatchPackageReferences?)
    requires Replay(db, e).Some?
    ensures DbOk(Replay(db, e).value)
  {
    hide DepTableOk, VersionOk, ReplayCreateVersion, ReplayUpdateVersion, ReplayDeleteVersion;
    var next := Replay(db, e).value;
    if e.instr.PatchPackageReferences? {
      PatchOk(db.deps, e.package, db.names[e.package]);
    }
    forall w: Id | w < |db.versions| ensures VersionOk(next, next.versions[w]) {
      VersionStaysOk(db, next, db.versions[w]);
    }
  }

  lemma ReplayOk(db: Db, e: Entry)
    requires DbOk(db) && Replay(db, e).Some?
    ensures DbOk(Replay(db, e).value)
  {
    hide DbOk;
    match e.instr {
      case CreateVersion(v, data) => CreateVersionOk(db, e, v, data);
      case UpdateVersion(v, data) => UpdateVersionOk(db, e, v, data);
      case DeleteVersion(v) => DeleteVersionOk(db, e, v);
      case _ => PackagesOk(db, e);
    }
  }

  // ---------- Counts ----------

  /** The stored count of a dependency under one kind. */
  function Count(t: DepTable, h: Digest, k: Kind): int
    requires DepTableOk(t)
  {
    if h in t.ids then t.rows[t.ids[h]].counts.Get(k) else 0
  }

  /** How often the first `n` of the listed ids name a dependency. */
  function Listings(rows: seq<Dependency>, ids: seq<Id>, n: nat, h: Digest): nat
    requires n <= |ids| && InRows(rows, ids)
  {
    if n == 0 then 0 else Listings(rows, ids, n - 1, h) + if rows[ids[n - 1]].Hash() == h then 1 else 0
  }

  function Signed(c: int, n: int): int {
    if c == 1 then n else -n
  }

  /** What the first `n` dependencies add to a count. */
  function Added(ds: seq<Dependency>, n: nat, h: Digest, k: Kind): int
    requires n <= |ds|
  {
    if n == 0 then 0 else Added(ds, n - 1, h, k) + if ds[n - 1].Hash() == h then ds[n - 1].counts.Get(k) else 0
  }

  lemma UpsertCount(t: DepTable, d: Dependency, h: Digest, k: Kind)
    requires DepTableOk(t) && DepTableOk(Upsert(t, d).0)
    ensures Count(Upsert(t, d).0, h, k) == Count(t, h, k) + if d.Hash() == h then d.counts.Get(k) else 0
  {
  }

  lemma {:induction false} UpsertAllCount(t: DepTable, ds: seq<Dependency>, n: nat, h: Digest, k: Kind)
    requires DepTableOk(t) && n <= |ds|
    ensures Count(UpsertAll(t, ds, n).0, h, k) == Count(t, h, k) + Added(ds, n, h, k)
  {
    if n > 0 {
      UpsertAllCount(t, ds, n - 1, h, k);
      var u := UpsertAll(t, ds, n - 1).0;
      UpsertOk(u, ds[n - 1]);
      UpsertCount(u, ds[n - 1], h, k);
    }
  }

  /** Marked dependencies add to the counts of their kind only. */
  lemma {:induction false} MarksAdd(rows: seq<Dependency>, ids: seq<Id>, j: Kind, c: int, n: nat, h: Digest, k: Kind)
    requires n <= |ids| && InRows(rows, ids)
    requires c == 1 || c == -1
    ensures Added(Marks(rows, ids, j, c), n, h, k)
         == if j != k then 0 else Signed(c, Listings(rows, ids, n, h))
  {
    if n > 0 {
      MarksAdd(rows, ids, j, c, n - 1, h, k);
    }
  }

  /** Recounting a version adds or takes away exactly its listings, whatever the counts that were read with its
      rows. */
  lemma RecountCounts(t: DepTable, v: Version, c: int, h: Digest, k: Kind)
    requires DepTableOk(t) && forall j :: InRows(t.rows, v.Deps(j))
    requires c == 1 || c == -1
    ensures Count(Recount(t, v, c), h, k)
         == Count(t, h, k) + Signed(c, Listings(t.rows, v.Deps(k), |v.Deps(k)|, h))
  {
    hide DepTableOk, Extends, UpsertAll, Upsert, Marks, Added, Listings, Count;
    assert v.Deps(Prod) == v.prod && v.Deps(Dev) == v.dev && v.Deps(Peer) == v.peer && v.Deps(Opt) == v.opt;
    var mp, md := Marks(t.rows, v.prod, Prod, c), Marks(t.rows, v.dev, Dev, c);
    var me, mo := Marks(t.rows, v.peer, Peer, c), Marks(t.rows, v.opt, Opt, c);
    var a := UpsertAll(t, mp, |mp|).0;
    var b := UpsertAll(a, md, |md|).0;
    var d := UpsertAll(b, me, |me|).0;
    UpsertAllCount(t, mp, |mp|, h, k);
    UpsertAllCount(a, md, |md|, h, k);
    UpsertAllCount(b, me, |me|, h, k);
    UpsertAllCount(d, mo, |mo|, h, k);
    MarksAdd(t.rows, v.prod, Prod, c, |v.prod|, h, k);
    MarksAdd(t.rows, v.dev, Dev, c, |v.dev|, h, k);
    MarksAdd(t.rows, v.peer, Peer, c, |v.peer|, h, k);
    MarksAdd(t.rows, v.opt, Opt, c, |v.opt|, h, k);
  }

  /** A new version's rows list exactly what was added under their kind. */
  lemma {:induction false} NewRowListings(rows: seq<Dependency>, ids: seq<Id>, news: seq<Dependency>,
                                          kinds: seq<Kind>, n: nat, h: Digest, k: Kind)
    requires n <= |ids| == |news| == |kinds|
    requires forall i :: 0 <= i < |ids| ==> ids[i] < |rows| && rows[ids[i]].Hash() == news[i].Hash()
    requires forall i :: 0 <= i < |ids| ==> news[i].counts == Unit(kinds[i], 1)
    ensures forall i :: 0 <= i < |OfKind(ids, kinds, n, k)| ==> OfKind(ids, kinds, n, k)[i] < |rows|
    ensures Listings(rows, OfKind(ids, kinds, n, k), |OfKind(ids, kinds, n, k)|, h) == Added(news, n, h, k)
  {
    hide Listings;
    OfKindIds(ids, kinds, n, k, |rows|);
    if n > 0 {
      NewRowListings(rows, ids, news, kinds, n - 1, h, k);
      var older, last := OfKind(ids, kinds, n - 1, k), ids[n - 1];
      OfKindIds(ids, kinds, n - 1, k, |rows|);
      OneMoreListing(rows, older, last, h);
      assert OfKind(ids, kinds, n, k) == if kinds[n - 1] == k then older + [last] else older;
      assert news[n - 1].counts == Unit(kinds[n - 1], 1);
    } else {
      NoListings(rows, h);
    }
  }

  lemma NoListings(rows: seq<Dependency>, h: Digest)
    ensures Listings(rows, [], 0, h) == 0
  {
  }

  lemma OneMoreListing(rows: seq<Dependency>, ids: seq<Id>, last: Id, h: Digest)
    requires InRows(rows, ids) && last < |rows|
    ensures InRows(rows, ids + [last])
    ensures Listings(rows, ids + [last], |ids| + 1, h)
         == Listings(rows, ids, |ids|, h) + if rows[last].Hash() == h then 1 else 0
  {
    assert ids == ids[..|ids|] && (ids + [last])[..|ids|] == ids;
    ListingsFrame(rows, rows, ids, ids + [last], |ids|, h);
  }

  /** Listings depend only on the ids and on the digests of their rows. */
  lemma {:induction false} ListingsFrame(rows: seq<Dependency>, next: seq<Dependency>, ids: seq<Id>, more: seq<Id>,
                                         n: nat, h: Digest)
    requires n <= |ids| && n <= |more| && ids[..n] == more[..n] && |rows| <= |next|
    requires InRows(rows, ids)
    requires forall i :: 0 <= i < |more| ==> more[i] < |next|
    requires forall i: Id :: i < |rows| ==> next[i].Hash() == rows[i].Hash()
    ensures Listings(next, more, n, h) == Listings(rows, ids, n, h)
  {
    if n > 0 {
      assert ids[..n][n - 1] == more[..n][n - 1];
      assert ids[..n - 1] == ids[..n][..n - 1] && more[..n - 1] == more[..n][..n - 1];
      ListingsFrame(rows, next, ids, more, n - 1, h);
    }
  }

  // ---------- Conservation ----------

  ghost predicate VersionsOk(versions: seq<Version>, rows: seq<Dependency>) {
    forall w: Id, k :: w < |versions| ==> InRows(rows, versions[w].Deps(k))
  }

  /** How often a live version lists a dependency under one kind. */
  function LiveListings(rows: seq<Dependency>, v: Version, h: Digest, k: Kind): nat
    requires forall j :: InRows(rows, v.Deps(j))
  {
    if v.state == IsLive then Listings(rows, v.Deps(k), |v.Deps(k)|, h) else 0
  }

  /** The listings of a dependency by the first `n` versions that are live. */
  ghost function Total(versions: seq<Version>, rows: seq<Dependency>, n: nat, h: Digest, k: Kind): nat
    requires n <= |versions| && VersionsOk(versions, rows)
  {
    if n == 0 then 0
    else Total(versions, rows, n - 1, h, k) + LiveListings(rows, versions[n - 1], h, k)
  }

  /** How far a stored count is above the number of times that live versions list the dependency under that kind. */
  ghost function Drift(db: Db, h: Digest, k: Kind): int
    requires DbOk(db)
  {
    DbVersionsOk(db);
    Count(db.deps, h, k) - Total(db.versions, db.deps.rows, |db.versions|, h, k)
  }

  /** Every stored count is the number of times that live versions list the dependency under that kind. */
  ghost predicate Conserved(db: Db)
    requires DbOk(db)
  {
    forall h, k :: Drift(db, h, k) == 0
  }

  lemma DbVersionsOk(db: Db)
    requires DbOk(db)
    ensures VersionsOk(db.versions, db.deps.rows)
  {
    hide DepTableOk;
    forall w: Id, k | w < |db.versions| ensures InRows(db.deps.rows, db.versions[w].Deps(k)) {
      assert VersionOk(db, db.versions[w]);
    }
  }

  ghost predicate SameDigests(rows: seq<Dependency>, next: seq<Dependency>) {
    |rows| <= |next| && forall i: Id :: i < |rows| ==> next[i].Hash() == rows[i].Hash()
  }

  lemma LiveListingsFrame(rows: seq<Dependency>, next: seq<Dependency>, v: Version, h: Digest, k: Kind)
    requires SameDigests(rows, next) && forall j :: InRows(rows, v.Deps(j))
    ensures forall j :: InRows(rows, v.Deps(j)) ==> InRows(next, v.Deps(j))
    ensures LiveListings(next, v, h, k) == LiveListings(rows, v, h, k)
  {
    ListingsFrame(rows, next, v.Deps(k), v.Deps(k), |v.Deps(k)|, h);
  }

  /** The total depends on the listed digests only. */
  lemma {:induction false} TotalFrame(versions: seq<Version>, rows: seq<Dependency>, more: seq<Version>,
                                      next: seq<Dependency>, n: nat, h: Digest, k: Kind)
    requires n <= |versions| && n <= |more| && VersionsOk(versions, rows) && VersionsOk(more, next)
    requires SameDigests(rows, next) && forall w: Id :: w < n ==> more[w] == versions[w]
    ensures Total(more, next, n, h, k) == Total(versions, rows, n, h, k)
  {
    hide SameDigests, VersionsOk;
    if n > 0 {
      TotalFrame(versions, rows, more, next, n - 1, h, k);
      DepsInRange(versions, rows, n - 1);
      LiveListingsFrame(rows, next, versions[n - 1], h, k);
    }
  }

  lemma DepsInRange(versions: seq<Version>, rows: seq<Dependency>, w: nat)
    requires VersionsOk(versions, rows) && w < |versions|
    ensures forall j :: InRows(rows, versions[w].Deps(j))
  {
  }

  /** Changing one version changes the total by what that version lists. */
  lemma {:induction false} TotalUpdate(versions: seq<Version>, rows: seq<Dependency>, id: Id, v: Version, n: nat,
                                       h: Digest, k: Kind)
    requires id < n <= |versions| && VersionsOk(versions, rows) && VersionsOk(versions[id := v], rows)
    requires forall j :: InRows(rows, v.Deps(j))
    requires forall j :: InRows(rows, versions[id].Deps(j))
    ensures Total(versions[id := v], rows, n, h, k)
         == Total(versions, rows, n, h, k) - LiveListings(rows, versions[id], h, k) + LiveListings(rows, v, h, k)
  {
    hide VersionsOk, LiveListings;
    if id < n - 1 {
      TotalUpdate(versions, rows, id, v, n - 1, h, k);
    } else {
      TotalFrame(versions, rows, versions[id := v], rows, n - 1, h, k) by {
        assert SameDigests(rows, rows);
      }
    }
  }

  /** What a change of one version does to the drift. */
  lemma ChangeDrifts(db: Db, next: Db, id: Id, h: Digest, k: Kind)
    requires DbOk(db) && DbOk(next) && id < |db.versions| == |next.versions|
    requires next.versions == db.versions[id := next.versions[id]] && SameDigests(db.deps.rows, next.deps.rows)
    ensures VersionsOk(db.versions, db.deps.rows) && VersionsOk(next.versions, next.deps.rows)
    ensures Drift(next, h, k) - Drift(db, h, k)
         == Count(next.deps, h, k) - Count(db.deps, h, k)
          - (LiveListings(next.deps.rows, next.versions[id], h, k) - LiveListings(db.deps.rows, db.versions[id], h, k))
  {
    hide DbOk, Count, LiveListings;
    DbVersionsOk(db);
    DbVersionsOk(next);
    var n, rows := |db.versions|, next.deps.rows;
    assert VersionsOk(db.versions, rows);
    TotalFrame(db.versions, db.deps.rows, db.versions, rows, n, h, k);
    TotalUpdate(db.versions, rows, id, next.versions[id], n, h, k);
    LiveListingsFrame(db.deps.rows, rows, db.versions[id], h, k);
  }

  lemma ExtendsKeepsDigests(t: DepTable, u: DepTable)
    requires Extends(t, u)
    ensures SameDigests(t.rows, u.rows)
  {
  }

  /** What recounting a version does to the drift. */
  lemma RecountDrifts(db: Db, next: Db, id: Id, c: int, h: Digest, k: Kind)
    requires DbOk(db) && DbOk(next) && Recounted(db, next, id, c) && (c == 1 || c == -1)
    ensures forall j :: InRows(db.deps.rows, db.versions[id].Deps(j))
    ensures var listings := Listings(db.deps.rows, db.versions[id].Deps(k), |db.versions[id].Deps(k)|, h);
      Drift(next, h, k) - Drift(db, h, k) == Signed(c, listings)
        - ((if next.versions[id].state == IsLive then listings else 0)
           - (if db.versions[id].state == IsLive then listings else 0))
  {
    hide DbOk, Count, Listings, Recount, Extends, Drift;
    RowsExtend(db, id, c);
    ChangeDrifts(db, next, id, h, k);
    RecountCounts(db.deps, db.versions[id], c, h, k);
    DepsInRange(next.versions, next.deps.rows, id);
    LiveListingsFrame(db.deps.rows, next.deps.rows, next.versions[id], h, k);
  }

  lemma RowsExtend(db: Db, id: Id, c: int)
    requires DbOk(db) && id < |db.versions|
    requires forall j :: InRows(db.deps.rows, db.versions[id].Deps(j))
    ensures DepTableOk(db.deps) && SameDigests(db.deps.rows, Recount(db.deps, db.versions[id], c).rows)
  {
    hide DepTableOk;
    RecountExtends(db.deps, db.versions[id], c);
    ExtendsKeepsDigests(db.deps, Recount(db.deps, db.versions[id], c));
  }

  predicate ListsNothing(v: Version) {
    v.prod == [] && v.dev == [] && v.peer == [] && v.opt == []
  }

  lemma {:induction false} ListedOnce(rows: seq<Dependency>, ids: seq<Id>, n: nat, i: nat)
    requires i < n <= |ids| && InRows(rows, ids)
    ensures Listings(rows, ids, n, rows[ids[i]].Hash()) > 0
  {
    if i < n - 1 {
      ListedOnce(rows, ids, n - 1, i);
    }
  }

  /** Some count of a version that lists something is listed under it. */
  lemma SomeListing(rows: seq<Dependency>, v: Version) returns (h: Digest, k: Kind)
    requires !ListsNothing(v) && forall j :: InRows(rows, v.Deps(j))
    ensures Listings(rows, v.Deps(k), |v.Deps(k)|, h) > 0
  {
    k := if v.prod != [] then Prod else if v.dev != [] then Dev else if v.peer != [] then Peer else Opt;
    h := rows[v.Deps(k)[0]].Hash();
    ListedOnce(rows, v.Deps(k), |v.Deps(k)|, 0);
  }

  /** `next` is `db` with version `id` in another state and its dependencies counted up or down. */
  ghost predicate Recounted(db: Db, next: Db, id: Id, c: int) {
    && id < |db.versions| == |next.versions| && next.versions == db.versions[id := next.versions[id]]
    && VersionOk(db, db.versions[id]) && (forall j :: next.versions[id].Deps(j) == db.versions[id].Deps(j))
    && DepTableOk(db.deps) && next.deps == Recount(db.deps, db.versions[id], c)
  }

  /** What the deletion of a deleted version takes away from a count: its listings, though it is not live. */
  ghost function Lost(db: Db, e: Entry, h: Digest, k: Kind): nat
    requires DbOk(db)
  {
    var id := FindVersion(db, e, if e.instr.DeleteVersion? then e.instr.v else "");
    if !e.instr.DeleteVersion? || id == None || db.versions[id.value].state == IsLive then 0
    else
      DbVersionsOk(db);
      Listings(db.deps.rows, db.versions[id.value].Deps(k), |db.versions[id.value].Deps(k)|, h)
  }

  /** A deletion moves the drift by what it takes away unduly. */
  lemma DeleteDrifts(db: Db, e: Entry, h: Digest, k: Kind)
    requires DbOk(db) && e.instr.DeleteVersion? && Replay(db, e).Some? && DbOk(Replay(db, e).value)
    ensures Drift(Replay(db, e).value, h, k) == Drift(db, h, k) - Lost(db, e, h, k)
  {
    hide DbOk, Recounted, Drift, ReplayDeleteVersion;
    DeletedRow(db, e, e.instr.v);
    RecountDrifts(db, Replay(db, e).value, FindVersion(db, e, e.instr.v).value, -1, h, k);
  }

  /** The rows that a deletion replaces. */
  lemma DeletedRow(db: Db, e: Entry, v: Semver)
    requires DbOk(db) && ReplayDeleteVersion(db, e, v).Some?
    ensures FindVersion(db, e, v).Some?
    ensures var next, id := ReplayDeleteVersion(db, e, v).value, FindVersion(db, e, v).value;
      id < |next.versions| && Recounted(db, next, id, -1) && next.versions[id].state == IsGone
  {
    hide DepTableOk, VersionOk, Recount, Extends;
  }

  lemma UpdatedRow(db: Db, e: Entry, v: Semver, data: VersionData)
    requires DbOk(db) && ReplayUpdateVersion(db, e, v, data).Some?
    ensures FindVersion(db, e, v).Some?
    ensures var next, id := ReplayUpdateVersion(db, e, v, data).value, FindVersion(db, e, v).value;
      && id < |db.versions| == |next.versions| && next.versions[id].state == IsLive
      && (db.versions[id].state == IsGone ==> Recounted(db, next, id, 1))
      && (db.versions[id].state == IsLive ==>
           next.deps == db.deps && next.versions == db.versions[id := next.versions[id]]
           && next.versions[id] == db.versions[id].(extra := next.versions[id].extra))
  {
    hide DepTableOk, VersionOk, SameVersion, Recount, Extends;
  }

  /** Reviving a deleted version, or updating a live one, leaves the drift as it is. */
  lemma UpdateDrifts(db: Db, e: Entry, v: Semver, data: VersionData, h: Digest, k: Kind)
    requires DbOk(db) && ReplayUpdateVersion(db, e, v, data).Some?
    requires DbOk(ReplayUpdateVersion(db, e, v, data).value)
    ensures Drift(ReplayUpdateVersion(db, e, v, data).value, h, k) == Drift(db, h, k)
  {
    hide DbOk, Recount, Recounted, Drift, ReplayUpdateVersion;
    UpdatedRow(db, e, v, data);
    var next, id := ReplayUpdateVersion(db, e, v, data).value, FindVersion(db, e, v).value;
    if db.versions[id].state == IsLive {
      ChangeDrifts(db, next, id, h, k);
    } else {
      RecountDrifts(db, next, id, 1, h, k);
    }
  }

  lemma NewDepsCounts(names: map<Name, Id>, data: VersionData, i: nat)
    requires i < |AllKinds(data)|
    ensures |AllNewDeps(names, data)| == |AllKinds(data)|
    ensures AllNewDeps(names, data)[i].counts == Unit(AllKinds(data)[i], 1)
  {
  }

  /** `row` lists, of each dependency under each kind, what inserting `news` added to its count. */
  ghost predicate ListsAdded(rows: seq<Dependency>, row: Version, news: seq<Dependency>, h: Digest, k: Kind) {
    && (forall j :: InRows(rows, row.Deps(j)))
    && LiveListings(rows, row, h, k) == Added(news, |news|, h, k)
  }

  lemma CreatedRow(t: DepTable, names: map<Name, Id>, package: Id, v: Semver, data: VersionData, e: Entry,
                   h: Digest, k: Kind)
    requires DepTableOk(t)
    ensures |AllNewDeps(names, data)| == |AllKinds(data)|
    ensures var (deps, ids) := UpsertAll(t, AllNewDeps(names, data), |AllNewDeps(names, data)|);
      ListsAdded(deps.rows, NewVersionRow(package, v, data, ids, e.seqId, e.entryId), AllNewDeps(names, data), h, k)
  {
    hide DepTableOk, Added, Listings, Extends, UpsertAll, OfKind;
    var news := AllNewDeps(names, data);
    var (deps, ids) := UpsertAll(t, news, |news|);
    var row := NewVersionRow(package, v, data, ids, e.seqId, e.entryId);
    forall i: nat | i < |ids| ensures news[i].counts == Unit(AllKinds(data)[i], 1) {
      NewDepsCounts(names, data, i);
    }
    forall j ensures InRows(deps.rows, row.Deps(j)) {
      OfKindIds(ids, AllKinds(data), |ids|, j, |deps.rows|);
    }
    NewRowListings(deps.rows, ids, news, AllKinds(data), |ids|, h, k);
  }

  lemma {:induction false} TotalOneMore(versions: seq<Version>, more: seq<Version>, rows: seq<Dependency>,
                                        next: seq<Dependency>, h: Digest, k: Kind)
    requires |more| == |versions| + 1 && more[..|versions|] == versions
    requires VersionsOk(versions, rows) && VersionsOk(more, next) && SameDigests(rows, next)
    requires forall j :: InRows(next, more[|versions|].Deps(j))
    ensures Total(more, next, |more|, h, k)
         == Total(versions, rows, |versions|, h, k) + LiveListings(next, more[|versions|], h, k)
  {
    hide VersionsOk, SameDigests, LiveListings;
    assert forall w: Id :: w < |versions| ==> more[w] == more[..|versions|][w];
    TotalFrame(versions, rows, more, next, |versions|, h, k);
  }

  /** A new version that lists what was added to the counts leaves the drift as it is. */
  lemma CreationDrifts(db: Db, next: Db, added: int, h: Digest, k: Kind)
    requires DbOk(db) && DbOk(next) && |next.versions| == |db.versions| + 1
    requires next.versions[..|db.versions|] == db.versions && SameDigests(db.deps.rows, next.deps.rows)
    requires forall j :: InRows(next.deps.rows, next.versions[|db.versions|].Deps(j))
    requires LiveListings(next.deps.rows, next.versions[|db.versions|], h, k) == added
    requires Count(next.deps, h, k) == Count(db.deps, h, k) + added
    ensures Drift(next, h, k) == Drift(db, h, k)
  {
    hide DbOk, Count, LiveListings, VersionsOk, SameDigests;
    DbVersionsOk(db);
    DbVersionsOk(next);
    TotalOneMore(db.versions, next.versions, db.deps.rows, next.deps.rows, h, k);
  }

  lemma CreateVersionDrifts(db: Db, e: Entry, v: Semver, data: VersionData, h: Digest, k: Kind)
    requires DbOk(db) && ReplayCreateVersion(db, e, v, data).Some?
    requires DbOk(ReplayCreateVersion(db, e, v, data).value)
    ensures Drift(ReplayCreateVersion(db, e, v, data).value, h, k) == Drift(db, h, k)
  {
    hide DepTableOk, VersionOk, Drift, LiveListings, NewVersionRow, Extends, Count;
    var next, news := ReplayCreateVersion(db, e, v, data).value, AllNewDeps(db.names, data);
    ExtendsKeepsDigests(db.deps, next.deps);
    CreatedRow(db.deps, db.names, db.names[e.package], v, data, e, h, k);
    UpsertAllCount(db.deps, news, |news|, h, k);
    CreationDrifts(db, next, Added(news, |news|, h, k), h, k);
  }

  lemma PackagesDrift(db: Db, e: Entry, h: Digest, k: Kind)
    requires DbOk(db) && (e.instr.CreatePackage? || e.instr.UpdatePackage? || e.instr.PatchPackageReferences?)
    requires Replay(db, e).Some? && DbOk(Replay(db, e).value)
    ensures Drift(Replay(db, e).value, h, k) == Drift(db, h, k)
  {
    hide DepTableOk, VersionOk, VersionsOk, Total;
    var next := Replay(db, e).value;
    DbVersionsOk(db);
    DbVersionsOk(next);
    assert SameDigests(db.deps.rows, next.deps.rows);
    TotalFrame(db.versions, db.deps.rows, next.versions, next.deps.rows, |db.versions|, h, k);
    CountFrame(db, e, h, k);
  }

  lemma CountFrame(db: Db, e: Entry, h: Digest, k: Kind)
    requires DbOk(db) && (e.instr.CreatePackage? || e.instr.UpdatePackage? || e.instr.PatchPackageReferences?)
    requires Replay(db, e).Some? && DbOk(Replay(db, e).value)
    ensures Count(Replay(db, e).value.deps, h, k) == Count(db.deps, h, k)
  {
    hide VersionOk;
  }

  /** The entry deletes a version that is deleted already and has dependencies. */
  predicate DeletesTwice(db: Db, e: Entry) {
    e.instr.DeleteVersion? && FindVersion(db, e, e.instr.v).Some?
    && FindVersion(db, e, e.instr.v).value < |db.versions|
    && var row := db.versions[FindVersion(db, e, e.instr.v).value]; row.state == IsGone && !ListsNothing(row)
  }

  /** Every instruction moves the drift of every count by exactly what it takes away unduly. */
  lemma ReplayDrifts(db: Db, e: Entry, h: Digest, k: Kind)
    requires DbOk(db) && Replay(db, e).Some?
    ensures DbOk(Replay(db, e).value)
    ensures Drift(Replay(db, e).value, h, k) == Drift(db, h, k) - Lost(db, e, h, k)
  {
    hide DbOk, Drift;
    ReplayOk(db, e);
    match e.instr {
      case CreateVersion(v, data) => CreateVersionDrifts(db, e, v, data, h, k);
      case UpdateVersion(v, data) => UpdateDrifts(db, e, v, data, h, k);
      case DeleteVersion(v) => DeleteDrifts(db, e, h, k);
      case _ => PackagesDrift(db, e, h, k);
    }
  }

  /** Something is lost just when a deleted version that has dependencies is deleted again. */
  lemma LostWhen(db: Db, e: Entry)
    requires DbOk(db) && Replay(db, e).Some?
    ensures DeletesTwice(db, e) <==> exists h, k :: Lost(db, e, h, k) > 0
  {
    hide DepTableOk, VersionOk, Replay;
    if DeletesTwice(db, e) {
      DbVersionsOk(db);
      var row := db.versions[FindVersion(db, e, e.instr.v).value];
      var h, k := SomeListing(db.deps.rows, row);
      assert Lost(db, e, h, k) > 0;
    }
  }

  /** An entry conserves the counts if and only if it does not delete a deleted version that has dependencies. */
  lemma ReplayConserves(db: Db, e: Entry)
    requires DbOk(db) && Conserved(db) && Replay(db, e).Some?
    ensures DbOk(Replay(db, e).value)
    ensures Conserved(Replay(db, e).value) <==> !DeletesTwice(db, e)
  {
    hide DbOk, Drift, Lost, DeletesTwice, Replay;
    ReplayOk(db, e);
    LostWhen(db, e);
    forall h, k ensures Drift(Replay(db, e).value, h, k) == 0 - Lost(db, e, h, k) {
      assert Drift(db, h, k) == 0;
      ReplayDrifts(db, e, h, k);
    }
    if DeletesTwice(db, e) {
      var h, k :| Lost(db, e, h, k) > 0;
      assert Drift(Replay(db, e).value, h, k) != 0;
    }
  }

  // ---------- References ----------

  /** A dependency refers to the package of its name if to any, and does so if that package is in `must`. */
  predicate RefRight(names: map<Name, Id>, must: set<Name>, d: Dependency) {
    && (d.dst.Some? ==> NameId(names, d.name) == d.dst)
    && (d.name in must ==> d.dst.Some?)
  }

  predicate RowsRight(names: map<Name, Id>, must: set<Name>, ds: seq<Dependency>) {
    forall i :: 0 <= i < |ds| ==> RefRight(names, must, ds[i])
  }

  lemma {:induction false} UpsertAllRight(t: DepTable, ds: seq<Dependency>, n: nat, names: map<Name, Id>,
                                          must: set<Name>)
    requires DepTableOk(t) && n <= |ds| && RowsRight(names, must, t.rows) && RowsRight(names, must, ds)
    ensures RowsRight(names, must, UpsertAll(t, ds, n).0.rows)
  {
    hide DepTableOk, RefRight;
    if n > 0 {
      UpsertAllRight(t, ds, n - 1, names, must);
      assert RefRight(names, must, ds[n - 1]);
      var u := UpsertAll(t, ds, n - 1).0;
      UpsertOk(u, ds[n - 1]);
      UpsertRight(u, ds[n - 1], names, must);
    }
  }

  lemma UpsertRight(t: DepTable, d: Dependency, names: map<Name, Id>, must: set<Name>)
    requires DepTableOk(t) && RowsRight(names, must, t.rows) && RefRight(names, must, d)
    ensures RowsRight(names, must, Upsert(t, d).0.rows)
  {
    if d.Hash() in t.ids {
      assert RefRight(names, must, t.rows[t.ids[d.Hash()]]);
    }
  }

  lemma MarksRight(rows: seq<Dependency>, ids: seq<Id>, k: Kind, c: int, names: map<Name, Id>, must: set<Name>)
    requires InRows(rows, ids)
    requires RowsRight(names, must, rows)
    ensures RowsRight(names, must, Marks(rows, ids, k, c))
  {
    forall i | 0 <= i < |ids| ensures RefRight(names, must, Marks(rows, ids, k, c)[i]) {
      assert RefRight(names, must, rows[ids[i]]);
    }
  }

  lemma RecountRight(t: DepTable, v: Version, c: int, names: map<Name, Id>, must: set<Name>)
    requires DepTableOk(t) && forall j :: InRows(t.rows, v.Deps(j))
    requires RowsRight(names, must, t.rows)
    ensures RowsRight(names, must, Recount(t, v, c).rows)
  {
    hide DepTableOk, Extends, Marks, RowsRight;
    assert v.Deps(Prod) == v.prod && v.Deps(Dev) == v.dev && v.Deps(Peer) == v.peer && v.Deps(Opt) == v.opt;
    var mp, md := Marks(t.rows, v.prod, Prod, c), Marks(t.rows, v.dev, Dev, c);
    var me, mo := Marks(t.rows, v.peer, Peer, c), Marks(t.rows, v.opt, Opt, c);
    var a := UpsertAll(t, mp, |mp|).0;
    var b := UpsertAll(a, md, |md|).0;
    var d := UpsertAll(b, me, |me|).0;
    MarksRight(t.rows, v.prod, Prod, c, names, must);
    MarksRight(t.rows, v.dev, Dev, c, names, must);
    MarksRight(t.rows, v.peer, Peer, c, names, must);
    MarksRight(t.rows, v.opt, Opt, c, names, must);
    UpsertAllRight(t, mp, |mp|, names, must);
    UpsertAllRight(a, md, |md|, names, must);
    UpsertAllRight(b, me, |me|, names, must);
    UpsertAllRight(d, mo, |mo|, names, must);
  }

  lemma NewDepsRight(names: map<Name, Id>, ds: seq<Listed>, k: Kind, must: set<Name>)
    requires must <= names.Keys
    ensures RowsRight(names, must, NewDeps(names, ds, k))
  {
  }

  lemma RowsRightConcat(names: map<Name, Id>, must: set<Name>, a: seq<Dependency>, b: seq<Dependency>)
    requires RowsRight(names, must, a) && RowsRight(names, must, b)
    ensures RowsRight(names, must, a + b)
  {
  }

  lemma AllNewDepsRight(names: map<Name, Id>, data: VersionData, must: set<Name>)
    requires must <= names.Keys
    ensures RowsRight(names, must, AllNewDeps(names, data))
  {
    hide RowsRight;
    var p, d := NewDeps(names, data.prod, Prod), NewDeps(names, data.dev, Dev);
    var e, o := NewDeps(names, data.peer, Peer), NewDeps(names, data.opt, Opt);
    NewDepsRight(names, data.prod, Prod, must);
    NewDepsRight(names, data.dev, Dev, must);
    NewDepsRight(names, data.peer, Peer, must);
    NewDepsRight(names, data.opt, Opt, must);
    RowsRightConcat(names, must, p, d);
    RowsRightConcat(names, must, p + d, e);
    RowsRightConcat(names, must, p + d + e, o);
  }

  /** A new package takes over no reference. */
  lemma NewNameRight(names: map<Name, Id>, must: set<Name>, ds: seq<Dependency>, n: Name, id: Id)
    requires n !in names && RowsRight(names, must, ds)
    ensures RowsRight(names[n := id], must, ds)
  {
    forall i | 0 <= i < |ds| ensures RefRight(names[n := id], must, ds[i]) {
      assert RefRight(names, must, ds[i]);
    }
  }

  lemma PatchRight(names: map<Name, Id>, must: set<Name>, rows: seq<Dependency>, p: Name)
    requires p in names && RowsRight(names, must, rows)
    ensures RowsRight(names, must + {p}, Patched(rows, p, names[p]))
  {
    forall i | 0 <= i < |rows| ensures RefRight(names, must + {p}, Patched(rows, p, names[p])[i]) {
      assert RefRight(names, must, rows[i]);
    }
  }

  function Patches(e: Entry): set<Name> {
    if e.instr.PatchPackageReferences? then {e.package} else {}
  }

  /** All references are right, and all rows that name a package of `must` have its id. */
  ghost predicate RightRefs(db: Db, must: set<Name>) {
    must <= db.names.Keys && RowsRight(db.names, must, db.deps.rows)
  }

  lemma CreatePackageRight(db: Db, e: Entry, data: PackageData, must: set<Name>)
    requires DbOk(db) && ReplayCreatePackage(db, e, data).Some? && RightRefs(db, must)
    ensures RightRefs(ReplayCreatePackage(db, e, data).value, must)
  {
    hide RowsRight, DepTableOk, VersionOk;
    NewNameRight(db.names, must, db.deps.rows, e.package, |db.packages|);
  }

  lemma PatchedRight(db: Db, e: Entry, must: set<Name>)
    requires DbOk(db) && ReplayPatch(db, e).Some? && RightRefs(db, must)
    ensures RightRefs(ReplayPatch(db, e).value, must + {e.package})
  {
    hide RowsRight, DepTableOk, VersionOk;
    PatchRight(db.names, must, db.deps.rows, e.package);
  }

  lemma CreateVersionRight(db: Db, e: Entry, v: Semver, data: VersionData, must: set<Name>)
    requires DbOk(db) && ReplayCreateVersion(db, e, v, data).Some? && RightRefs(db, must)
    ensures RightRefs(ReplayCreateVersion(db, e, v, data).value, must)
  {
    hide RowsRight, DepTableOk, VersionOk, AllNewDeps, NewVersionRow, Extends;
    var news := AllNewDeps(db.names, data);
    AllNewDepsRight(db.names, data, must);
    UpsertAllRight(db.deps, news, |news|, db.names, must);
  }

  lemma UpdateVersionRight(db: Db, e: Entry, v: Semver, data: VersionData, must: set<Name>)
    requires DbOk(db) && ReplayUpdateVersion(db, e, v, data).Some? && RightRefs(db, must)
    ensures RightRefs(ReplayUpdateVersion(db, e, v, data).value, must)
  {
    hide DepTableOk, RowsRight, Recount, SameVersion;
    UpdatedRow(db, e, v, data);
    var row := db.versions[FindVersion(db, e, v).value];
    if row.state == IsGone {
      RecountRight(db.deps, row, 1, db.names, must);
    }
  }

  lemma DeleteVersionRight(db: Db, e: Entry, v: Semver, must: set<Name>)
    requires DbOk(db) && ReplayDeleteVersion(db, e, v).Some? && RightRefs(db, must)
    ensures RightRefs(ReplayDeleteVersion(db, e, v).value, must)
  {
    hide DepTableOk, RowsRight, Recount;
    DeletedRow(db, e, v);
    RecountRight(db.deps, db.versions[FindVersion(db, e, v).value], -1, db.names, must);
  }

  lemma UpdatePackageRight(db: Db, e: Entry, data: PackageData, must: set<Name>)
    requires DbOk(db) && ReplayUpdatePackage(db, e, data).Some? && RightRefs(db, must)
    ensures RightRefs(ReplayUpdatePackage(db, e, data).value, must)
  {
    hide DepTableOk, VersionOk, RowsRight;
  }

  /** No entry leaves or makes a wrong reference, and a patched package stays referred to by all that name it. */
  lemma ReplayRight(db: Db, e: Entry, must: set<Name>)
    requires DbOk(db) && Replay(db, e).Some? && RightRefs(db, must)
    ensures RightRefs(Replay(db, e).value, must + Patches(e))
  {
    hide DbOk, RightRefs, ReplayCreatePackage, ReplayUpdatePackage, ReplayPatch, ReplayCreateVersion,
      ReplayUpdateVersion, ReplayDeleteVersion;
    assert must + {} == must;
    match e.instr {
      case CreatePackage(data) => CreatePackageRight(db, e, data, must);
      case UpdatePackage(data) => UpdatePackageRight(db, e, data, must);
      case PatchPackageReferences => PatchedRight(db, e, must);
      case CreateVersion(v, data) => CreateVersionRight(db, e, v, data, must);
      case UpdateVersion(v, data) => UpdateVersionRight(db, e, v, data, must);
      case DeleteVersion(v) => DeleteVersionRight(db, e, v, must);
    }
  }

  /** The latest version of a package is one of its own. */
  ghost predicate LatestOk(db: Db) {
    forall p: Id :: p < |db.packages| && db.packages[p].latest.Some? ==>
      db.packages[p].latest.value < |db.versions| && db.versions[db.packages[p].latest.value].package == p
  }

  lemma UpdatePackageLatestOk(db: Db, e: Entry, data: PackageData)
    requires DbOk(db) && LatestOk(db) && ReplayUpdatePackage(db, e, data).Some?
    ensures LatestOk(ReplayUpdatePackage(db, e, data).value)
  {
    hide DepTableOk, VersionOk;
    var id := db.names[e.package];
    if data.Normal? && data.latest.Some? {
      assert VersionAt(db, db.versionIds[(id, data.latest.value)], id, data.latest.value);
    }
  }

  ghost predicate SamePackages(versions: seq<Version>, more: seq<Version>) {
    |versions| <= |more| && forall w: Id :: w < |versions| ==> more[w].package == versions[w].package
  }

  lemma ReplayKeepsPackages(db: Db, e: Entry)
    requires DbOk(db) && Replay(db, e).Some?
    ensures SamePackages(db.versions, Replay(db, e).value.versions)
  {
    hide DepTableOk, VersionOk, SameVersion, Recount, Extends, UpsertAll, NewVersionRow;
  }

  lemma ReplayLatestOk(db: Db, e: Entry)
    requires DbOk(db) && LatestOk(db) && Replay(db, e).Some?
    ensures LatestOk(Replay(db, e).value)
  {
    ReplayKeepsPackages(db, e);
    if e.instr.UpdatePackage? {
      hide DbOk, LatestOk;
      UpdatePackageLatestOk(db, e, e.instr.data);
    } else {
      hide DbOk;
      KeepsLatest(db, e);
    }
  }

  lemma KeepsLatest(db: Db, e: Entry)
    requires DbOk(db) && Replay(db, e).Some? && !e.instr.UpdatePackage?
    ensures var next := Replay(db, e).value; |db.packages| <= |next.packages|
    ensures var next := Replay(db, e).value;
      next.packages == db.packages
      || (next.packages[..|db.packages|] == db.packages && |next.packages| == |db.packages| + 1
          && next.packages[|db.packages|].latest == None)
  {
    hide DepTableOk, VersionOk, SameVersion, Recount, Extends, UpsertAll, NewVersionRow;
  }

  // ---------- Runs ----------

  /** The tables after the first `n` entries of a log. */
  function ReplayAll(es: seq<Entry>, n: nat): (r: Option<Db>)
    requires n <= |es|
    ensures r.Some? ==> DbOk(r.value)
  {
    if n == 0 then Some(EMPTY)
    else
      var before := ReplayAll(es, n - 1);
      if before == None then None
      else if Replay(before.value, es[n - 1]) == None then None
      else
        ReplayOk(before.value, es[n - 1]);
        Replay(before.value, es[n - 1])
  }

  /** The packages whose references the first `n` entries patch. */
  function PatchedBy(es: seq<Entry>, n: nat): set<Name>
    requires n <= |es|
  {
    if n == 0 then {} else PatchedBy(es, n - 1) + Patches(es[n - 1])
  }

  /** None of the first `n` entries deletes a deleted version that has dependencies. */
  ghost predicate NoDoubleDelete(es: seq<Entry>, n: nat)
    requires n <= |es|
  {
    n == 0 || (NoDoubleDelete(es, n - 1)
      && (ReplayAll(es, n - 1).Some? ==> !DeletesTwice(ReplayAll(es, n - 1).value, es[n - 1])))
  }

  /** What the first `n` entries have taken away unduly from a count. */
  ghost function LostBy(es: seq<Entry>, n: nat, h: Digest, k: Kind): nat
    requires n <= |es| && ReplayAll(es, n).Some?
  {
    if n == 0 then 0 else LostBy(es, n - 1, h, k) + Lost(ReplayAll(es, n - 1).value, es[n - 1], h, k)
  }

  lemma EmptyConserves(h: Digest, k: Kind)
    ensures DbOk(EMPTY) && Drift(EMPTY, h, k) == 0
  {
  }

  /** After any log, each count is off by exactly what double deletions took away: nothing else moves it, and nothing
      ever repairs it. */
  lemma {:induction false} LogDrifts(es: seq<Entry>, n: nat, h: Digest, k: Kind)
    requires n <= |es| && ReplayAll(es, n).Some?
    ensures Drift(ReplayAll(es, n).value, h, k) == 0 - LostBy(es, n, h, k)
  {
    hide DbOk, Drift, Lost, Replay;
    if n > 0 {
      LogDrifts(es, n - 1, h, k);
      ReplayDrifts(ReplayAll(es, n - 1).value, es[n - 1], h, k);
    } else {
      EmptyConserves(h, k);
    }
  }

  /** The first `n` entries take nothing away unduly from the count. */
  ghost predicate Unharmed(es: seq<Entry>, n: nat, h: Digest, k: Kind)
    requires n <= |es| && ReplayAll(es, n).Some?
  {
    LostBy(es, n, h, k) == 0
  }

  /** The last of the first `n` entries does. */
  ghost predicate Harms(es: seq<Entry>, n: nat, h: Digest, k: Kind)
    requires 0 < n <= |es| && ReplayAll(es, n).Some?
  {
    Lost(ReplayAll(es, n - 1).value, es[n - 1], h, k) > 0
  }

  lemma UnharmedNext(es: seq<Entry>, n: nat, h: Digest, k: Kind)
    requires 0 < n <= |es| && ReplayAll(es, n).Some?
    ensures Unharmed(es, n, h, k) <==> Unharmed(es, n - 1, h, k) && !Harms(es, n, h, k)
  {
    hide DbOk, Lost, Replay;
  }

  lemma HarmsWhen(es: seq<Entry>, n: nat)
    requires 0 < n <= |es| && ReplayAll(es, n).Some?
    ensures DeletesTwice(ReplayAll(es, n - 1).value, es[n - 1]) <==> exists h, k :: Harms(es, n, h, k)
  {
    hide DbOk, Lost, DeletesTwice, Replay;
    var db := ReplayAll(es, n - 1).value;
    LostWhen(db, es[n - 1]);
    if DeletesTwice(db, es[n - 1]) {
      var h, k :| Lost(db, es[n - 1], h, k) > 0;
      assert Harms(es, n, h, k);
    }
    if h, k :| Harms(es, n, h, k) {
      assert Lost(db, es[n - 1], h, k) > 0;
    }
  }

  lemma {:induction false} LostWhenever(es: seq<Entry>, n: nat)
    requires n <= |es| && ReplayAll(es, n).Some?
    ensures NoDoubleDelete(es, n) <==> forall h, k :: Unharmed(es, n, h, k)
  {
    hide DbOk, DeletesTwice, Replay, Unharmed, Harms;
    if n > 0 {
      LostWhenever(es, n - 1);
      HarmsWhen(es, n);
      if !NoDoubleDelete(es, n - 1) {
        var h, k :| !Unharmed(es, n - 1, h, k);
        UnharmedNext(es, n, h, k);
      } else if !NoDoubleDelete(es, n) {
        var h, k :| Harms(es, n, h, k);
        UnharmedNext(es, n, h, k);
      } else {
        forall h, k ensures Unharmed(es, n, h, k) {
          UnharmedNext(es, n, h, k);
        }
      }
    } else {
      NothingHarmed(es);
    }
  }

  lemma NothingHarmed(es: seq<Entry>)
    ensures forall h, k :: Unharmed(es, 0, h, k)
  {
  }

  /** After any log, all counts are the numbers of listings by live versions if and only if the log never deletes a
      deleted version that has dependencies. */
  lemma LogConserves(es: seq<Entry>, n: nat)
    requires n <= |es| && ReplayAll(es, n).Some?
    ensures Conserved(ReplayAll(es, n).value) <==> NoDoubleDelete(es, n)
  {
    hide DbOk, Drift, ReplayAll, NoDoubleDelete, Unharmed;
    LostWhenever(es, n);
    var db := ReplayAll(es, n).value;
    forall h, k ensures Drift(db, h, k) == 0 <==> Unharmed(es, n, h, k) {
      DriftMeans(es, n, h, k);
    }
    if Conserved(db) {
      forall h, k ensures Unharmed(es, n, h, k) {
        assert Drift(db, h, k) == 0;
      }
    } else {
      var h, k :| Drift(db, h, k) != 0;
      assert !Unharmed(es, n, h, k);
    }
  }

  lemma DriftMeans(es: seq<Entry>, n: nat, h: Digest, k: Kind)
    requires n <= |es| && ReplayAll(es, n).Some?
    ensures Drift(ReplayAll(es, n).value, h, k) == 0 <==> Unharmed(es, n, h, k)
  {
    LogDrifts(es, n, h, k);
  }

  lemma EmptyRight()
    ensures LatestOk(EMPTY) && RightRefs(EMPTY, {})
  {
  }

  /** After any log, every reference is right, and no dependency on a package that was ever patched lacks its id. */
  lemma {:induction false} LogLinks(es: seq<Entry>, n: nat)
    requires n <= |es| && ReplayAll(es, n).Some?
    ensures var db := ReplayAll(es, n).value;
      LatestOk(db) && RightRefs(db, PatchedBy(es, n))
  {
    hide DbOk, RightRefs, LatestOk, Replay;
    if n > 0 {
      LogLinks(es, n - 1);
      ReplayRight(ReplayAll(es, n - 1).value, es[n - 1], PatchedBy(es, n - 1));
      ReplayLatestOk(ReplayAll(es, n - 1).value, es[n - 1]);
    } else {
      EmptyRight();
    }
  }
}
