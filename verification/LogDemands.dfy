/** Exactly which logs are replayed to their end, told by the log alone: what an update of a version is compared with
    is what the version was created with, whatever happened in between (relational_db_builder/src/lib.rs). */
module LogDemands {
  import opened Optional
  import opened RelationalModel
  import opened RelationalRuns
  import opened DiffLogModel
  import opened DiffLogRuns
  import opened DiffLogReplay

  // ---------- What a row shows of the data that it was made from ----------

  /** The rows with these ids are the listed dependencies. */
  predicate ShowsList(rows: seq<Dependency>, ids: seq<Id>, ds: seq<Listed>) {
    && |ids| == |ds|
    && forall i :: 0 <= i < |ids| ==> ids[i] < |rows| && TextOf(rows[ids[i]]) == ds[i]
  }

  function TextOf(d: Dependency): Listed {
    Listed(d.name, d.spec)
  }

  ghost predicate Shows(rows: seq<Dependency>, row: Version, data: VersionData) {
    && (forall k: Kind :: ShowsList(rows, row.Deps(k), data.Deps(k)))
    && row.tarball == data.tarball && row.repo == data.repo
  }

  /** The two agree on all that an update may not change. */
  predicate SameFixed(a: VersionData, b: VersionData) {
    && a.prod == b.prod && a.dev == b.dev && a.peer == b.peer && a.opt == b.opt
    && a.tarball == b.tarball && a.repo == b.repo
  }

  lemma SameList(rows: seq<Dependency>, ids: seq<Id>, ds: seq<Listed>, others: seq<Listed>)
    requires ShowsList(rows, ids, ds)
    ensures InRows(rows, ids) && (SameDeps(rows, ids, others) <==> ds == others)
  {
    if SameDeps(rows, ids, others) {
      forall i | 0 <= i < |ds| ensures ds[i] == others[i] {
        assert TextOf(rows[ids[i]]) == ds[i];
      }
    }
  }

  /** The assertions of `update_version` pass exactly for data that agree with what the row shows. */
  lemma UpdateCompares(rows: seq<Dependency>, row: Version, shown: VersionData, data: VersionData)
    requires Shows(rows, row, shown)
    ensures forall k: Kind :: InRows(rows, row.Deps(k))
    ensures SameVersion(rows, row, data) <==> SameFixed(shown, data)
  {
    hide ShowsList, SameDeps;
    assert ShowsList(rows, row.Deps(Prod), shown.Deps(Prod)) && ShowsList(rows, row.Deps(Dev), shown.Deps(Dev));
    assert ShowsList(rows, row.Deps(Peer), shown.Deps(Peer)) && ShowsList(rows, row.Deps(Opt), shown.Deps(Opt));
    SameList(rows, row.prod, shown.prod, data.prod);
    SameList(rows, row.dev, shown.dev, data.dev);
    SameList(rows, row.peer, shown.peer, data.peer);
    SameList(rows, row.opt, shown.opt, data.opt);
    forall k: Kind ensures InRows(rows, row.Deps(k)) {
    }
  }

  // ---------- No instruction changes it ----------

  ghost predicate KeepsTexts(rows: seq<Dependency>, next: seq<Dependency>) {
    |rows| <= |next| && forall i: Id :: i < |rows| ==> TextOf(next[i]) == TextOf(rows[i])
  }

  lemma ExtendsKeepsTexts(t: DepTable, u: DepTable)
    requires Extends(t, u)
    ensures KeepsTexts(t.rows, u.rows)
  {
  }

  lemma RecountKeepsTexts(t: DepTable, v: Version, n: int)
    requires DepTableOk(t) && forall k :: InRows(t.rows, v.Deps(k))
    ensures KeepsTexts(t.rows, Recount(t, v, n).rows)
  {
    hide DepTableOk, Extends, Recount, KeepsTexts;
    RecountExtends(t, v, n);
    ExtendsKeepsTexts(t, Recount(t, v, n));
  }

  lemma CreationKeepsTexts(t: DepTable, news: seq<Dependency>)
    requires DepTableOk(t)
    ensures KeepsTexts(t.rows, UpsertAll(t, news, |news|).0.rows)
  {
    hide DepTableOk, Extends, KeepsTexts;
    ExtendsKeepsTexts(t, UpsertAll(t, news, |news|).0);
  }

  lemma PatchKeepsTexts(rows: seq<Dependency>, name: Name, id: Id)
    ensures KeepsTexts(rows, rows) && KeepsTexts(rows, Patched(rows, name, id))
  {
  }

  /** No instruction changes the name or the spec of a dependency. */
  lemma ReplayKeepsTexts(db: Db, e: Entry)
    requires DbOk(db) && Replay(db, e).Some?
    ensures KeepsTexts(db.deps.rows, Replay(db, e).value.deps.rows)
  {
    hide DepTableOk, Extends, UpsertAll, Recount, NewVersionRow, KeepsTexts, SameVersion, Patched;
    PatchKeepsTexts(db.deps.rows, e.package, if e.package in db.names then db.names[e.package] else 0);
    match e.instr {
      case CreateVersion(_, data) => CreationKeepsTexts(db.deps, AllNewDeps(db.names, data));
      case UpdateVersion(v, _) => RecountKeepsTexts(db.deps, db.versions[FindVersion(db, e, v).value], 1);
      case DeleteVersion(v) => RecountKeepsTexts(db.deps, db.versions[FindVersion(db, e, v).value], -1);
      case _ =>
    }
  }

  lemma StillShows(rows: seq<Dependency>, next: seq<Dependency>, row: Version, later: Version, data: VersionData)
    requires Shows(rows, row, data) && KeepsTexts(rows, next)
    requires forall k :: later.Deps(k) == row.Deps(k)
    requires later.tarball == row.tarball && later.repo == row.repo
    ensures Shows(next, later, data)
  {
    forall k: Kind ensures ShowsList(next, later.Deps(k), data.Deps(k)) {
      assert ShowsList(rows, row.Deps(k), data.Deps(k));
    }
  }

  // ---------- The new row shows its data ----------

  /** No two of the listed dependencies have the same digest. */
  ghost predicate Told(texts: set<Listed>) {
    forall a, b :: a in texts && b in texts && a.name + a.spec.raw == b.name + b.spec.raw ==> a == b
  }

  ghost predicate RowsFrom(rows: seq<Dependency>, texts: set<Listed>) {
    forall i :: 0 <= i < |rows| ==> TextOf(rows[i]) in texts
  }

  lemma {:induction false} UpsertAllFrom(t: DepTable, ds: seq<Dependency>, n: nat, texts: set<Listed>)
    requires DepTableOk(t) && n <= |ds| && RowsFrom(t.rows, texts) && RowsFrom(ds, texts)
    ensures RowsFrom(UpsertAll(t, ds, n).0.rows, texts)
  {
    hide DepTableOk, RowsFrom;
    if n > 0 {
      UpsertAllFrom(t, ds, n - 1, texts);
      UpsertFrom(UpsertAll(t, ds, n - 1).0, ds, n - 1, texts);
    }
  }

  lemma UpsertFrom(t: DepTable, ds: seq<Dependency>, i: nat, texts: set<Listed>)
    requires DepTableOk(t) && i < |ds| && RowsFrom(t.rows, texts) && RowsFrom(ds, texts)
    ensures RowsFrom(Upsert(t, ds[i]).0.rows, texts)
  {
  }

  lemma MarksFrom(rows: seq<Dependency>, ids: seq<Id>, k: Kind, n: int, texts: set<Listed>)
    requires InRows(rows, ids) && RowsFrom(rows, texts)
    ensures RowsFrom(Marks(rows, ids, k, n), texts)
  {
    forall i | 0 <= i < |ids| ensures TextOf(Marks(rows, ids, k, n)[i]) in texts {
      assert TextOf(rows[ids[i]]) in texts;
    }
  }

  lemma RecountFrom(t: DepTable, v: Version, n: int, texts: set<Listed>)
    requires DepTableOk(t) && (forall k :: InRows(t.rows, v.Deps(k))) && RowsFrom(t.rows, texts)
    ensures RowsFrom(Recount(t, v, n).rows, texts)
  {
    hide DepTableOk, RowsFrom, UpsertAll, Marks;
    assert v.Deps(Prod) == v.prod && v.Deps(Dev) == v.dev && v.Deps(Peer) == v.peer && v.Deps(Opt) == v.opt;
    MarksFrom(t.rows, v.prod, Prod, n, texts);
    MarksFrom(t.rows, v.dev, Dev, n, texts);
    MarksFrom(t.rows, v.peer, Peer, n, texts);
    MarksFrom(t.rows, v.opt, Opt, n, texts);
    var a := UpsertAll(t, Marks(t.rows, v.prod, Prod, n), |v.prod|).0;
    UpsertAllFrom(t, Marks(t.rows, v.prod, Prod, n), |v.prod|, texts);
    var b := UpsertAll(a, Marks(t.rows, v.dev, Dev, n), |v.dev|).0;
    UpsertAllFrom(a, Marks(t.rows, v.dev, Dev, n), |v.dev|, texts);
    var c := UpsertAll(b, Marks(t.rows, v.peer, Peer, n), |v.peer|).0;
    UpsertAllFrom(b, Marks(t.rows, v.peer, Peer, n), |v.peer|, texts);
    UpsertAllFrom(c, Marks(t.rows, v.opt, Opt, n), |v.opt|, texts);
  }

  lemma PatchFrom(rows: seq<Dependency>, name: Name, id: Id, texts: set<Listed>)
    requires RowsFrom(rows, texts)
    ensures RowsFrom(Patched(rows, name, id), texts)
  {
    forall i | 0 <= i < |rows| ensures TextOf(Patched(rows, name, id)[i]) in texts {
      assert TextOf(rows[i]) in texts;
    }
  }

  /** All that a version lists. */
  function AllListed(data: VersionData): (r: seq<Listed>)
    ensures |r| == |AllKinds(data)|
  {
    data.prod + data.dev + data.peer + data.opt
  }

  lemma NewTexts(names: map<Name, Id>, data: VersionData)
    ensures |AllNewDeps(names, data)| == |AllListed(data)|
    ensures forall i :: 0 <= i < |AllListed(data)| ==> TextOf(AllNewDeps(names, data)[i]) == AllListed(data)[i]
  {
  }

  /** The texts that an instruction may add to the table. */
  function TextsOf(e: Entry): set<Listed> {
    if e.instr.CreateVersion? then (set x | x in AllListed(e.instr.vdata)) else {}
  }

  lemma NewDepsFrom(names: map<Name, Id>, data: VersionData, texts: set<Listed>)
    requires forall x :: x in AllListed(data) ==> x in texts
    ensures RowsFrom(AllNewDeps(names, data), texts)
  {
    NewTexts(names, data);
  }

  /** Every row of the table was listed by a version when it was created. */
  lemma ReplayFrom(db: Db, e: Entry, texts: set<Listed>)
    requires DbOk(db) && Replay(db, e).Some? && RowsFrom(db.deps.rows, texts) && TextsOf(e) <= texts
    ensures RowsFrom(Replay(db, e).value.deps.rows, texts)
  {
    hide DepTableOk, Extends, UpsertAll, Recount, NewVersionRow, RowsFrom, SameVersion, Patched;
    match e.instr {
      case CreateVersion(_, data) =>
        NewDepsFrom(db.names, data, texts);
        UpsertAllFrom(db.deps, AllNewDeps(db.names, data), |AllNewDeps(db.names, data)|, texts);
      case UpdateVersion(v, _) => RecountFrom(db.deps, db.versions[FindVersion(db, e, v).value], 1, texts);
      case DeleteVersion(v) => RecountFrom(db.deps, db.versions[FindVersion(db, e, v).value], -1, texts);
      case PatchPackageReferences => PatchFrom(db.deps.rows, e.package, db.names[e.package], texts);
      case _ =>
    }
  }

  /** Of the first `n` listed dependencies, those of kind `k`. */
  function Picked(ds: seq<Listed>, kinds: seq<Kind>, n: nat, k: Kind): seq<Listed>
    requires n <= |ds| && n <= |kinds|
  {
    if n == 0 then [] else Picked(ds, kinds, n - 1, k) + if kinds[n - 1] == k then [ds[n - 1]] else []
  }

  lemma {:induction false} PickedShown(rows: seq<Dependency>, ids: seq<Id>, ds: seq<Listed>, kinds: seq<Kind>, n: nat,
                                       k: Kind)
    requires ShowsList(rows, ids, ds) && n <= |ids| == |kinds|
    ensures ShowsList(rows, OfKind(ids, kinds, n, k), Picked(ds, kinds, n, k))
  {
    if n > 0 {
      PickedShown(rows, ids, ds, kinds, n - 1, k);
    }
  }

  /** How many of the first `n` listed dependencies precede those of kind `k`, which follow each other. */
  function Offset(data: VersionData, k: Kind): nat {
    match k
    case Prod => 0
    case Dev => |data.prod|
    case Peer => |data.prod| + |data.dev|
    case Opt => |data.prod| + |data.dev| + |data.peer|
  }

  lemma KindAt(data: VersionData, i: nat, k: Kind)
    requires i < |AllKinds(data)|
    ensures AllKinds(data)[i] == k <==> Offset(data, k) <= i < Offset(data, k) + |data.Deps(k)|
    ensures AllKinds(data)[i] == k ==> AllListed(data)[i] == data.Deps(k)[i - Offset(data, k)]
  {
  }

  lemma {:induction false} PickedIs(data: VersionData, n: nat, k: Kind)
    requires n <= |AllKinds(data)|
    ensures var m := n - Offset(data, k);
      Picked(AllListed(data), AllKinds(data), n, k)
        == data.Deps(k)[..if m < 0 then 0 else if m > |data.Deps(k)| then |data.Deps(k)| else m]
  {
    if n > 0 {
      PickedIs(data, n - 1, k);
      KindAt(data, n - 1, k);
    }
  }

  lemma PickedAll(data: VersionData, k: Kind)
    ensures Picked(AllListed(data), AllKinds(data), |AllKinds(data)|, k) == data.Deps(k)
  {
    hide Picked, AllListed, AllKinds;
    PickedIs(data, |AllKinds(data)|, k);
    assert data.Deps(k)[..|data.Deps(k)|] == data.Deps(k);
  }

  /** A new row shows the data that it was made from, if digests tell the listed dependencies apart. */
  lemma NewRowShows(db: Db, e: Entry, v: Semver, data: VersionData, texts: set<Listed>)
    requires DbOk(db) && ReplayCreateVersion(db, e, v, data).Some?
    requires Told(texts) && RowsFrom(ReplayCreateVersion(db, e, v, data).value.deps.rows, texts)
    requires forall x :: x in AllListed(data) ==> x in texts
    ensures var next := ReplayCreateVersion(db, e, v, data).value;
      |next.versions| == |db.versions| + 1 && Shows(next.deps.rows, next.versions[|db.versions|], data)
  {
    hide DepTableOk, Extends, UpsertAll, ShowsList, VersionOk;
    var news, next := AllNewDeps(db.names, data), ReplayCreateVersion(db, e, v, data).value;
    var ids := UpsertAll(db.deps, news, |news|).1;
    IdsShow(db, news, data, next.deps.rows, ids, texts);
    forall k: Kind ensures ShowsList(next.deps.rows, OfKind(ids, AllKinds(data), |ids|, k), data.Deps(k)) {
      PickedShown(next.deps.rows, ids, AllListed(data), AllKinds(data), |ids|, k);
      PickedAll(data, k);
    }
  }

  lemma IdsShow(db: Db, news: seq<Dependency>, data: VersionData, rows: seq<Dependency>, ids: seq<Id>,
                texts: set<Listed>)
    requires news == AllNewDeps(db.names, data) && |ids| == |news|
    requires forall i :: 0 <= i < |ids| ==> ids[i] < |rows| && rows[ids[i]].Hash() == news[i].Hash()
    requires Told(texts) && RowsFrom(rows, texts) && forall x :: x in AllListed(data) ==> x in texts
    ensures ShowsList(rows, ids, AllListed(data))
  {
    hide AllNewDeps, AllListed;
    NewTexts(db.names, data);
    forall i | 0 <= i < |ids| ensures TextOf(rows[ids[i]]) == AllListed(data)[i] {
      var a, b := TextOf(rows[ids[i]]), AllListed(data)[i];
      assert TextOf(news[i]) == b && b in AllListed(data);
      assert a in texts && b in texts;
    }
  }

  // ---------- Logs ----------

  /** What each version was created with. */
  type Creations = map<(Name, Semver), VersionData>

  function Noted(c: Creations, e: Entry): Creations {
    if e.instr.CreateVersion? then c[(e.package, e.instr.v) := e.instr.vdata] else c
  }

  function CreationsBy(log: seq<Entry>, n: nat): Creations
    requires n <= |log|
  {
    if n == 0 then map[] else Noted(CreationsBy(log, n - 1), log[n - 1])
  }

  function TextsBy(log: seq<Entry>, n: nat): set<Listed>
    requires n <= |log|
  {
    if n == 0 then {} else TextsBy(log, n - 1) + TextsOf(log[n - 1])
  }

  /** What an entry's data must satisfy, told by the log: the version times of an unpublished package cannot be stored
      by an update, a new version lists no package twice under one kind, and an update of a version has the
      dependencies, the tarball and the repository that the version was created with. */
  predicate DataFits(c: Creations, e: Entry) {
    match e.instr
    case UpdatePackage(data) => data.Unpublished? ==> data.times == map[]
    case CreateVersion(_, data) => AllUnique(data)
    case UpdateVersion(v, data) => (e.package, v) in c && SameFixed(c[(e.package, v)], data)
    case _ => true
  }

  predicate AllFit(log: seq<Entry>, n: nat)
    requires n <= |log|
  {
    n == 0 || (AllFit(log, n - 1) && DataFits(CreationsBy(log, n - 1), log[n - 1]))
  }

  /** The row of each version shows what the version was created with. */
  ghost predicate CreationsShown(db: Db, c: Creations) {
    forall key :: key in c ==> RowShows(db, key.0, key.1, c[key])
  }

  ghost predicate RowShows(db: Db, n: Name, v: Semver, data: VersionData) {
    && n in db.names && (db.names[n], v) in db.versionIds && db.versionIds[(db.names[n], v)] < |db.versions|
    && Shows(db.deps.rows, db.versions[db.versionIds[(db.names[n], v)]], data)
  }

  /** Rows and indexes of older versions stay, but for what may change in a row. */
  ghost predicate KeepsVersions(db: Db, next: Db) {
    && |db.versions| <= |next.versions|
    && (forall n :: n in db.names ==> n in next.names && next.names[n] == db.names[n])
    && (forall key :: key in db.versionIds ==> key in next.versionIds && next.versionIds[key] == db.versionIds[key])
    && (forall w: Id :: w < |db.versions| ==> SameShown(db.versions[w], next.versions[w]))
  }

  predicate SameShown(a: Version, b: Version) {
    && a.prod == b.prod && a.dev == b.dev && a.peer == b.peer && a.opt == b.opt
    && a.tarball == b.tarball && a.repo == b.repo
  }

  lemma ReplayKeepsVersions(db: Db, e: Entry)
    requires DbOk(db) && Replay(db, e).Some?
    ensures KeepsVersions(db, Replay(db, e).value)
  {
    hide DepTableOk, Extends, UpsertAll, Recount, NewVersionRow, SameVersion, Patched, VersionOk;
  }

  lemma RowStillShows(db: Db, next: Db, n: Name, v: Semver, data: VersionData)
    requires RowShows(db, n, v, data) && KeepsVersions(db, next) && KeepsTexts(db.deps.rows, next.deps.rows)
    ensures RowShows(next, n, v, data)
  {
    hide Shows, KeepsTexts;
    var id := db.versionIds[(db.names[n], v)];
    assert SameShown(db.versions[id], next.versions[id]);
    StillShows(db.deps.rows, next.deps.rows, db.versions[id], next.versions[id], data);
  }

  lemma CreatedRowShows(db: Db, e: Entry, texts: set<Listed>)
    requires DbOk(db) && Replay(db, e).Some? && e.instr.CreateVersion?
    requires Told(texts) && RowsFrom(Replay(db, e).value.deps.rows, texts) && TextsOf(e) <= texts
    ensures RowShows(Replay(db, e).value, e.package, e.instr.v, e.instr.vdata)
  {
    hide Told, RowsFrom, Shows, AllListed;
    forall x | x in AllListed(e.instr.vdata) ensures x in texts {
      assert x in TextsOf(e);
    }
    NewRowShows(db, e, e.instr.v, e.instr.vdata, texts);
  }

  lemma ReplayShows(db: Db, e: Entry, c: Creations, texts: set<Listed>)
    requires DbOk(db) && Replay(db, e).Some? && CreationsShown(db, c)
    requires Told(texts) && RowsFrom(db.deps.rows, texts) && TextsOf(e) <= texts
    ensures CreationsShown(Replay(db, e).value, Noted(c, e)) && RowsFrom(Replay(db, e).value.deps.rows, texts)
  {
    hide DbOk, Replay, Told, RowsFrom, TextsOf, RowShows, KeepsVersions, KeepsTexts;
    ReplayFrom(db, e, texts);
    ReplayKeepsTexts(db, e);
    ReplayKeepsVersions(db, e);
    var next := Replay(db, e).value;
    forall key | key in Noted(c, e) ensures RowShows(next, key.0, key.1, Noted(c, e)[key]) {
      if e.instr.CreateVersion? && key == (e.package, e.instr.v) {
        CreatedRowShows(db, e, texts);
      } else {
        RowStillShows(db, next, key.0, key.1, c[key]);
      }
    }
  }

  /** For what exists, the data are right for the tables just when they fit the log. */
  lemma DataOkIsFit(db: Db, e: Entry, c: Creations)
    requires DbOk(db) && CreationsShown(db, c)
    requires e.instr.UpdateVersion? ==> (e.package, e.instr.v) in c
    ensures DataOk(db, e) <==> DataFits(c, e)
  {
    hide DbOk, Shows, SameVersion, SameFixed, AllUnique;
    if e.instr.UpdateVersion? {
      var data := c[(e.package, e.instr.v)];
      assert RowShows(db, e.package, e.instr.v, data);
      UpdateCompares(db.deps.rows, db.versions[FindVersion(db, e, e.instr.v).value], data, e.instr.vdata);
    }
  }

  /** The versions that a log knows are those that it notes. */
  ghost predicate SameKeys(known: Known, c: Creations) {
    forall n, v :: (At(known, n).Some? && v in At(known, n).value) <==> (n, v) in c
  }

  lemma {:induction false} KnownAreNoted(log: seq<Entry>, n: nat)
    requires n <= |log| && LogReplays(log[..n])
    ensures SameKeys(KnownAfter(log[..n]), CreationsBy(log, n))
  {
    if n > 0 {
      LastEntry(log, n);
      assert log[..n][..n - 1] == log[..n - 1];
      KnownAreNoted(log, n - 1);
    } else {
      assert log[..0] == [];
    }
  }

  /** The tables follow the log. */
  ghost predicate Follows(db: Db, known: Known, c: Creations, texts: set<Listed>) {
    && (forall p :: InTables(db, p) == At(known, p))
    && CreationsShown(db, c) && RowsFrom(db.deps.rows, texts)
  }

  lemma EmptyFollowsAll(texts: set<Listed>)
    ensures DbOk(EMPTY) && Follows(EMPTY, map[], map[], texts)
  {
  }

  lemma NextReplays(db: Db, e: Entry, known: Known, c: Creations, texts: set<Listed>)
    requires DbOk(db) && Follows(db, known, c, texts) && SameKeys(known, c)
    ensures Replay(db, e).Some? <==> CanReplay(At(known, e.package), e.instr) && DataFits(c, e)
  {
    hide DbOk, Replay, DataOk, DataFits, CreationsShown, RowsFrom, InTables;
    ReplaySucceeds(db, e);
    if CanReplay(At(known, e.package), e.instr) {
      DataOkIsFit(db, e, c);
    }
  }

  lemma NextFollows(db: Db, e: Entry, known: Known, c: Creations, texts: set<Listed>, next: Known)
    requires DbOk(db) && Follows(db, known, c, texts) && Replay(db, e).Some?
    requires Told(texts) && TextsOf(e) <= texts
    requires forall p :: At(next, p) == Grown(At(known, p), e, p)
    ensures Follows(Replay(db, e).value, next, Noted(c, e), texts)
  {
    hide DbOk, Replay, CreationsShown, RowsFrom, InTables, Told, TextsOf, AfterReplay, Noted;
    ReplayShows(db, e, c, texts);
    forall p ensures InTables(Replay(db, e).value, p) == At(next, p) {
      ReplayCreates(db, e, p);
    }
  }

  /** Exactly which logs are replayed to their end, told without the tables: those that refer only to what was
      created, create nothing twice, and whose data fit what the versions were created with. */
  lemma {:induction false} ReplaysExactly(log: seq<Entry>, n: nat, texts: set<Listed>)
    requires n <= |log| && Told(texts) && TextsBy(log, n) <= texts
    ensures ReplayAll(log, n).Some? <==> LogReplays(log[..n]) && AllFit(log, n)
    ensures ReplayAll(log, n).Some? ==>
      Follows(ReplayAll(log, n).value, KnownAfter(log[..n]), CreationsBy(log, n), texts)
  {
    hide DbOk, Replay, DataOk, CanReplay, AfterReplay, DataFits, Follows, Told, TextsOf, Noted;
    if n > 0 {
      ReplaysExactly(log, n - 1, texts);
      assert log[..n][..n - 1] == log[..n - 1];
      if ReplayAll(log, n - 1).Some? {
        var db, e := ReplayAll(log, n - 1).value, log[n - 1];
        var known, c := KnownAfter(log[..n - 1]), CreationsBy(log, n - 1);
        KnownAreNoted(log, n - 1);
        NextReplays(db, e, known, c, texts);
        if Replay(db, e).Some? {
          LastEntry(log, n);
          NextFollows(db, e, known, c, texts, KnownAfter(log[..n]));
        }
      }
    } else {
      assert log[..0] == [];
      EmptyFollowsAll(texts);
    }
  }

  /** The log of the builder is replayed to its end if and only if every update of a version has the dependencies,
      tarball and repository that the version was created with, and the other data can be stored. */
  lemma BuilderLogFits(log: seq<Entry>)
    requires LogReplays(log) && Told(TextsBy(log, |log|))
    ensures ReplayAll(log, |log|).Some? <==> AllFit(log, |log|)
  {
    assert log[..|log|] == log;
    ReplaysExactly(log, |log|, TextsBy(log, |log|));
  }

  // ---------- Counters ----------

  /** The versions that are deleted. */
  type Gone = set<(Name, Semver)>

  function GoneAfter(gone: Gone, e: Entry): Gone {
    match e.instr
    case CreateVersion(v, _) => gone - {(e.package, v)}
    case UpdateVersion(v, _) => gone - {(e.package, v)}
    case DeleteVersion(v) => gone + {(e.package, v)}
    case _ => gone
  }

  function GoneBy(log: seq<Entry>, n: nat): Gone
    requires n <= |log|
  {
    if n == 0 then {} else GoneAfter(GoneBy(log, n - 1), log[n - 1])
  }

  /** The entry deletes a deleted version that was created with dependencies. */
  predicate DeletesGone(c: Creations, gone: Gone, e: Entry) {
    && e.instr.DeleteVersion? && (e.package, e.instr.v) in gone && (e.package, e.instr.v) in c
    && AllListed(c[(e.package, e.instr.v)]) != []
  }

  predicate NeverDeletesGone(log: seq<Entry>, n: nat)
    requires n <= |log|
  {
    n == 0 || (NeverDeletesGone(log, n - 1) && !DeletesGone(CreationsBy(log, n - 1), GoneBy(log, n - 1), log[n - 1]))
  }

  predicate HasState(db: Db, n: Name, v: Semver, gone: bool) {
    && n in db.names && (db.names[n], v) in db.versionIds && db.versionIds[(db.names[n], v)] < |db.versions|
    && (db.versions[db.versionIds[(db.names[n], v)]].state == IsGone <==> gone)
  }

  ghost predicate StatesShown(db: Db, c: Creations, gone: Gone) {
    forall key :: key in c ==> HasState(db, key.0, key.1, key in gone)
  }

  predicate IsAbout(e: Entry, n: Name, v: Semver) {
    e.package == n && ((e.instr.CreateVersion? || e.instr.UpdateVersion? || e.instr.DeleteVersion?) && e.instr.v == v)
  }

  /** An entry leaves the states of the versions that it does not name. */
  lemma OtherStateKept(db: Db, e: Entry, n: Name, v: Semver, gone: bool)
    requires DbOk(db) && Replay(db, e).Some? && HasState(db, n, v, gone) && !IsAbout(e, n, v)
    ensures HasState(Replay(db, e).value, n, v, gone)
  {
    hide DepTableOk, Extends, UpsertAll, Recount, NewVersionRow, SameVersion, Patched, VersionOk;
    assert VersionAt(db, db.versionIds[(db.names[n], v)], db.names[n], v);
    if e.instr.UpdateVersion? || e.instr.DeleteVersion? {
      assert VersionAt(db, FindVersion(db, e, e.instr.v).value, db.names[e.package], e.instr.v);
    }
  }

  lemma OwnState(db: Db, e: Entry, v: Semver, gone: Gone)
    requires DbOk(db) && Replay(db, e).Some? && IsAbout(e, e.package, v)
    ensures HasState(Replay(db, e).value, e.package, v, (e.package, v) in GoneAfter(gone, e))
  {
    hide DepTableOk, Extends, UpsertAll, Recount, SameVersion, Patched, VersionOk;
  }

  lemma ReplayShowsStates(db: Db, e: Entry, c: Creations, gone: Gone)
    requires DbOk(db) && Replay(db, e).Some? && StatesShown(db, c, gone)
    ensures StatesShown(Replay(db, e).value, Noted(c, e), GoneAfter(gone, e))
  {
    hide DbOk, Replay, HasState;
    forall key | key in Noted(c, e)
      ensures HasState(Replay(db, e).value, key.0, key.1, key in GoneAfter(gone, e))
    {
      if IsAbout(e, key.0, key.1) {
        OwnState(db, e, key.1, gone);
      } else {
        OtherStateKept(db, e, key.0, key.1, key in gone);
      }
    }
  }

  /** A version lists something in the tables just when it was created with dependencies. */
  lemma DeletesTwiceIs(db: Db, e: Entry, c: Creations, gone: Gone)
    requires DbOk(db) && CreationsShown(db, c) && StatesShown(db, c, gone)
    requires e.instr.DeleteVersion? ==> (e.package, e.instr.v) in c
    ensures DeletesTwice(db, e) <==> DeletesGone(c, gone, e)
  {
    hide DbOk;
    if e.instr.DeleteVersion? {
      var n, v, data := e.package, e.instr.v, c[(e.package, e.instr.v)];
      assert RowShows(db, n, v, data) && HasState(db, n, v, (n, v) in gone);
      var row := db.versions[db.versionIds[(db.names[n], v)]];
      NothingShown(db.deps.rows, row, data);
    }
  }

  lemma NothingShown(rows: seq<Dependency>, row: Version, data: VersionData)
    requires Shows(rows, row, data)
    ensures ListsNothing(row) <==> AllListed(data) == []
  {
    assert ShowsList(rows, row.Deps(Prod), data.Deps(Prod)) && ShowsList(rows, row.Deps(Dev), data.Deps(Dev));
    assert ShowsList(rows, row.Deps(Peer), data.Deps(Peer)) && ShowsList(rows, row.Deps(Opt), data.Deps(Opt));
  }

  lemma {:induction false} StatesFollow(log: seq<Entry>, n: nat)
    requires n <= |log| && ReplayAll(log, n).Some?
    ensures StatesShown(ReplayAll(log, n).value, CreationsBy(log, n), GoneBy(log, n))
  {
    hide DbOk, Replay, StatesShown, Noted, GoneAfter;
    if n > 0 {
      StatesFollow(log, n - 1);
      ReplayShowsStates(ReplayAll(log, n - 1).value, log[n - 1], CreationsBy(log, n - 1), GoneBy(log, n - 1));
    } else {
      assert StatesShown(EMPTY, map[], {}) by {
        EmptyStates();
      }
    }
  }

  lemma EmptyStates()
    ensures StatesShown(EMPTY, map[], {})
  {
  }

  lemma {:induction false} DoubleDeletesIn(log: seq<Entry>, n: nat, texts: set<Listed>)
    requires n <= |log| && ReplayAll(log, n).Some? && Told(texts) && TextsBy(log, n) <= texts
    ensures NoDoubleDelete(log, n) <==> NeverDeletesGone(log, n)
  {
    hide DbOk, Replay, DeletesTwice, DeletesGone, Follows, StatesShown, Told, TextsOf, Noted, GoneAfter, CanReplay;
    if n > 0 {
      DoubleDeletesIn(log, n - 1, texts);
      StatesFollow(log, n - 1);
      DeletionFollows(log, n, texts);
    }
  }

  lemma DeletionFollows(log: seq<Entry>, n: nat, texts: set<Listed>)
    requires 0 < n <= |log| && ReplayAll(log, n).Some? && ReplayAll(log, n - 1).Some?
    requires Told(texts) && TextsBy(log, n) <= texts
    ensures DeletesTwice(ReplayAll(log, n - 1).value, log[n - 1])
      <==> DeletesGone(CreationsBy(log, n - 1), GoneBy(log, n - 1), log[n - 1])
  {
    hide DbOk, Replay, DeletesTwice, DeletesGone, StatesShown, CreationsShown, RowsFrom, Told, TextsOf, Noted,
      GoneAfter, InTables;
    ReplaysExactly(log, n, texts);
    ReplaysExactly(log, n - 1, texts);
    assert log[..n][..n - 1] == log[..n - 1];
    KnownAreNoted(log, n - 1);
    StatesFollow(log, n - 1);
    DeletesTwiceIs(ReplayAll(log, n - 1).value, log[n - 1], CreationsBy(log, n - 1), GoneBy(log, n - 1));
  }

  /** Told without the tables: a log that replays leaves all dependency counts right if and only if it never deletes a
      version that is deleted already and was created with dependencies. */
  lemma CountsRightWhen(log: seq<Entry>)
    requires ReplayAll(log, |log|).Some? && Told(TextsBy(log, |log|))
    ensures Conserved(ReplayAll(log, |log|).value) <==> NeverDeletesGone(log, |log|)
  {
    LogConserves(log, |log|);
    DoubleDeletesIn(log, |log|, TextsBy(log, |log|));
  }

  /** What `assert_unique` demands of a new version: under no kind is a package listed twice. */
  lemma UniqueMeans(data: VersionData)
    ensures AllUnique(data) <==> forall k: Kind :: UniqueNames(data.Deps(k))
    ensures forall k: Kind, x, y ::
      AllUnique(data) && x in data.Deps(k) && y in data.Deps(k) && x.name == y.name ==> x == y
  {
    assert data.Deps(Prod) == data.prod && data.Deps(Dev) == data.dev;
    assert data.Deps(Peer) == data.peer && data.Deps(Opt) == data.opt;
  }
}
