/** The replay of diff-log entries through the caches, proved against the direct replay
    (relational_db_builder/src/lib.rs). */
module RelationalReplay {
  import opened Optional
  import opened RelationalModel
  import opened RelationalRuns
  import opened RelationalCache
  import opened RelationalAccessor

  lemma OverlayDbOk(db: Db, states: DepStates, dirty: set<Digest>)
    requires DepTableOk(db.deps)
    ensures DbOk(db.(deps := Overlay(db.deps, states, dirty))) <==> DbOk(db)
  {
    var next := db.(deps := Overlay(db.deps, states, dirty));
    OverlayOk(db.deps, states, dirty);
    hide DepTableOk, Overlay;
    if DbOk(db) {
      SameShapeOk(db, next);
    }
    if DbOk(next) {
      SameShapeOk(next, db);
    }
  }

  /** Well-formedness does not depend on the counts. */
  lemma SameShapeOk(db: Db, next: Db)
    requires DbOk(db) && DepTableOk(next.deps) && next == db.(deps := next.deps)
    requires |next.deps.rows| == |db.deps.rows|
    ensures DbOk(next)
  {
    hide DepTableOk;
    forall w: Id | w < |db.versions| ensures VersionOk(next, next.versions[w]) {
      VersionStaysOk(db, next, db.versions[w]);
    }
  }

  /** Marking ignores the counts of the rows that are read, so that stale counts do no harm. */
  lemma StaleMarks(t: DepTable, states: DepStates, dirty: set<Digest>, ids: seq<Id>, k: Kind, c: int)
    requires InRows(t.rows, ids)
    ensures Marks(Overlay(t, states, dirty).rows, ids, k, c) == Marks(t.rows, ids, k, c)
  {
  }

  lemma StaleDeps(t: DepTable, states: DepStates, dirty: set<Digest>, ids: seq<Id>, ds: seq<Listed>)
    requires InRows(t.rows, ids)
    ensures SameDeps(Overlay(t, states, dirty).rows, ids, ds) == SameDeps(t.rows, ids, ds)
  {
    var rows := Overlay(t, states, dirty).rows;
    assert forall i :: 0 <= i < |ids| ==> rows[ids[i]].name == t.rows[ids[i]].name;
    assert forall i :: 0 <= i < |ids| ==> rows[ids[i]].spec == t.rows[ids[i]].spec;
    if SameDeps(t.rows, ids, ds) {
      assert SameDeps(rows, ids, ds);
    } else if |ids| == |ds| {
      var i :| 0 <= i < |ids| && !(t.rows[ids[i]].name == ds[i].name && t.rows[ids[i]].spec == ds[i].spec);
      assert rows[ids[i]].name == t.rows[ids[i]].name;
    }
  }

  lemma StaleCompare(t: DepTable, states: DepStates, dirty: set<Digest>, v: Version, data: VersionData)
    requires forall k :: InRows(t.rows, v.Deps(k))
    ensures forall k :: InRows(t.rows, v.Deps(k)) ==> InRows(Overlay(t, states, dirty).rows, v.Deps(k))
    ensures SameVersion(Overlay(t, states, dirty).rows, v, data) == SameVersion(t.rows, v, data)
  {
    assert v.Deps(Prod) == v.prod && v.Deps(Dev) == v.dev && v.Deps(Peer) == v.peer && v.Deps(Opt) == v.opt;
    StaleDeps(t, states, dirty, v.prod, data.prod);
    StaleDeps(t, states, dirty, v.dev, data.dev);
    StaleDeps(t, states, dirty, v.peer, data.peer);
    StaleDeps(t, states, dirty, v.opt, data.opt);
    hide Overlay, SameDeps;
  }

  lemma VersionFound(db: Db, e: Entry, v: Semver)
    requires DbOk(db) && FindVersion(db, e, v).Some?
    ensures FindVersion(db, e, v).value < |db.versions| && VersionOk(db, db.versions[FindVersion(db, e, v).value])
  {
    hide DepTableOk, VersionOk;
    assert VersionAt(db, FindVersion(db, e, v).value, db.names[e.package], v);
  }

  class EntryProcessor {
    const db: RelationalDbAccessor

    constructor (accessor: RelationalDbAccessor)
      ensures db == accessor
    {
      db := accessor;
    }

    /** `process_entry`: it panics exactly where the direct replay does, and otherwise has its effect. */
    method ProcessEntry(e: Entry) returns (ok: bool)
      requires db.Valid()
      modifies db
      ensures DbOk(old(db.Abs())) && (ok <==> Replay(old(db.Abs()), e).Some?)
      ensures ok ==> db.Valid() && db.Abs() == Replay(old(db.Abs()), e).value
    {
      OverlayDbOk(db.tables, db.depStates, db.needFlush);
      ghost var before := db.Abs();
      match e.instr {
        case CreatePackage(data) => ok := this.CreatePackage(e, data);
        case UpdatePackage(data) => ok := this.UpdatePackage(e, data);
        case PatchPackageReferences => ok := this.PatchPackageRefs(e);
        case CreateVersion(v, data) => ok := this.CreateVersion(e, v, data);
        case UpdateVersion(v, data) => ok := this.UpdateVersion(e, v, data);
        case DeleteVersion(v) => ok := this.DeleteVersion(e, v);
      }
      if ok {
        ReplayOk(before, e);
        OverlayDbOk(db.tables, db.depStates, db.needFlush);
      }
    }

    method CreatePackage(e: Entry, data: PackageData) returns (ok: bool)
      requires db.Valid()
      modifies db
      ensures ok <==> ReplayCreatePackage(old(db.Abs()), e, data).Some?
      ensures ok ==> db.Settled() && db.Abs() == ReplayCreatePackage(old(db.Abs()), e, data).value
    {
      hide DbOk;
      var row := NewPackageRow(e.package, data, e.seqId, e.entryId);
      if row == None {
        return false;
      }
      ok := db.InsertNewPackage(row.value);
    }

    method UpdatePackage(e: Entry, data: PackageData) returns (ok: bool)
      requires db.Valid() && DbOk(db.Abs())
      modifies db
      ensures ok <==> ReplayUpdatePackage(old(db.Abs()), e, data).Some?
      ensures ok ==> db.Settled() && db.Abs() == ReplayUpdatePackage(old(db.Abs()), e, data).value
    {
      var before := db.GetPackageByName(e.package);
      if before == None {
        return false;
      }
      var id := before.value.id;
      var latest := None;
      if data.Normal? && data.latest.Some? {
        latest := db.GetVersionIdBySemver(id, data.latest.value);
        if latest == None {
          return false;
        }
      }
      var row := UpdatedPackageRow(before.value.row, data, latest, e.seqId, e.entryId);
      if row == None {
        return false;
      }
      DiffThenApply(before.value.row, row.value);
      db.UpdatePackage(id, e.package, Diff(before.value.row, row.value));
      ok := true;
    }

    method PatchPackageRefs(e: Entry) returns (ok: bool)
      requires db.Valid()
      modifies db
      ensures ok <==> ReplayPatch(old(db.Abs()), e).Some?
      ensures ok ==> db.Settled() && db.Abs() == ReplayPatch(old(db.Abs()), e).value
    {
      var id := db.MaybeGetPackageIdByName(e.package);
      if id == None {
        return false;
      }
      db.UpdateDepsMissingPack(e.package, id.value);
      ok := true;
    }

    /** `assert_unique`. */
    method AssertUnique(ds: seq<Listed>) returns (ok: bool)
      ensures ok <==> UniqueNames(ds)
    {
      var seen := {};
      for i := 0 to |ds|
        invariant forall n :: n in seen <==> exists j :: 0 <= j < i && ds[j].name == n
        invariant UniqueNames(ds[..i])
      {
        if ds[i].name in seen {
          return false;
        }
        seen := seen + {ds[i].name};
      }
      assert ds[..|ds|] == ds;
      ok := true;
    }

    /** `NewDependency::create` for each listed dependency, with the ids of the packages that are known. */
    method CreateDependencies(ds: seq<Listed>, k: Kind) returns (news: seq<Dependency>)
      requires db.Valid()
      modifies db`packageIds
      ensures db.Valid() && news == NewDeps(db.tables.names, ds, k)
    {
      hide DbOk;
      news := [];
      for i := 0 to |ds|
        invariant db.Valid() && |news| == i
        invariant forall j :: 0 <= j < i ==> news[j] == NewDeps(db.tables.names, ds, k)[j]
      {
        var dst := db.MaybeGetPackageIdByName(ds[i].name);
        news := news + [Dependency(ds[i].name, dst, ds[i].spec, Unit(k, 1))];
      }
    }

    /** The inserted ids, sorted into one list for each kind. */
    method SortByKind(ids: seq<Id>, kinds: seq<Kind>) returns (prod: seq<Id>, dev: seq<Id>, peer: seq<Id>, opt: seq<Id>)
      requires |ids| == |kinds|
      ensures prod == OfKind(ids, kinds, |ids|, Prod) && dev == OfKind(ids, kinds, |ids|, Dev)
      ensures peer == OfKind(ids, kinds, |ids|, Peer) && opt == OfKind(ids, kinds, |ids|, Opt)
    {
      prod, dev, peer, opt := [], [], [], [];
      for i := 0 to |ids|
        invariant prod == OfKind(ids, kinds, i, Prod) && dev == OfKind(ids, kinds, i, Dev)
        invariant peer == OfKind(ids, kinds, i, Peer) && opt == OfKind(ids, kinds, i, Opt)
      {
        match kinds[i] {
          case Prod => prod := prod + [ids[i]];
          case Dev => dev := dev + [ids[i]];
          case Peer => peer := peer + [ids[i]];
          case Opt => opt := opt + [ids[i]];
        }
      }
    }

    method CreateVersion(e: Entry, v: Semver, data: VersionData) returns (ok: bool)
      requires db.Valid() && DbOk(db.Abs())
      modifies db
      ensures ok <==> ReplayCreateVersion(old(db.Abs()), e, v, data).Some?
      ensures ok ==> db.Settled() && db.Abs() == ReplayCreateVersion(old(db.Abs()), e, v, data).value
    {
      hide DbOk, DepTableOk, DepCacheOk, Overlay, IdsAgree, DataAgrees, OfKind, NewDeps, AllUnique, Extends;
      var unique := AllListsUnique(data);
      if !unique {
        return false;
      }
      var package := db.MaybeGetPackageIdByName(e.package);
      if package == None {
        return false;
      }
      var prod := CreateDependencies(data.prod, Prod);
      var dev := CreateDependencies(data.dev, Dev);
      var peer := CreateDependencies(data.peer, Peer);
      var opt := CreateDependencies(data.opt, Opt);
      var toInsert := prod + dev + peer + opt;
      var ids := db.InsertOrIncDependencies(toInsert);
      var p, d, q, o := SortByKind(ids, AllKinds(data));
      var row := Version(package.value, v, IsLive, [VersionPoint(IsLive, e.seqId, e.entryId, Some(data.time))],
                         data.tarball, data.repo, data.time, data.extra, p, d, q, o);
      ok := db.InsertNewVersion(row);
    }

    method AllListsUnique(data: VersionData) returns (ok: bool)
      ensures ok <==> AllUnique(data)
    {
      var a := AssertUnique(data.prod);
      var b := AssertUnique(data.dev);
      var c := AssertUnique(data.peer);
      var d := AssertUnique(data.opt);
      ok := a && b && c && d;
    }

    /** The row of the version that an instruction names; None where one of the lookups panics. */
    method FindVersionRow(e: Entry, v: Semver) returns (r: Option<Id>)
      requires db.Valid()
      modifies db`packageIds, db`versionIds
      ensures db.Valid() && r == FindVersion(db.tables, e, v)
    {
      var package := db.MaybeGetPackageIdByName(e.package);
      if package == None {
        return None;
      }
      r := db.GetVersionIdBySemver(package.value, v);
    }

    /** Counts a version's dependencies up or down, reading all the rows, with whatever counts, before any is
        written. */
    method RecountVersion(row: Version, n: int)
      requires db.Valid() && DbOk(db.Abs()) && VersionOk(db.tables, row)
      modifies db`tables, db`depStates, db`needFlush
      ensures db.DepsValid() && db.tables == old(db.tables).(deps := db.tables.deps)
      ensures db.Abs().deps == Recount(old(db.Abs()).deps, row, n)
    {
      assert row.Deps(Prod) == row.prod && row.Deps(Dev) == row.dev;
      assert row.Deps(Peer) == row.peer && row.Deps(Opt) == row.opt;
      StaleMarks(db.tables.deps, db.depStates, db.needFlush, row.prod, Prod, n);
      StaleMarks(db.tables.deps, db.depStates, db.needFlush, row.dev, Dev, n);
      StaleMarks(db.tables.deps, db.depStates, db.needFlush, row.peer, Peer, n);
      StaleMarks(db.tables.deps, db.depStates, db.needFlush, row.opt, Opt, n);
      hide DbOk, DepTableOk, Overlay, Marks, UpsertAll;
      var prod, dev := Marks(db.tables.deps.rows, row.prod, Prod, n), Marks(db.tables.deps.rows, row.dev, Dev, n);
      var peer, opt := Marks(db.tables.deps.rows, row.peer, Peer, n), Marks(db.tables.deps.rows, row.opt, Opt, n);
      var _ := db.InsertOrIncDependencies(prod);
      var _ := db.InsertOrIncDependencies(dev);
      var _ := db.InsertOrIncDependencies(peer);
      var _ := db.InsertOrIncDependencies(opt);
    }

    method DeleteVersion(e: Entry, v: Semver) returns (ok: bool)
      requires db.Valid() && DbOk(db.Abs())
      modifies db
      ensures ok <==> ReplayDeleteVersion(old(db.Abs()), e, v).Some?
      ensures ok ==> db.Settled() && db.Abs() == ReplayDeleteVersion(old(db.Abs()), e, v).value
    {
      hide DbOk, DepTableOk, DepCacheOk, Overlay, Recount, IdsAgree, DataAgrees, SameVersion;
      var id := FindVersionRow(e, v);
      if id == None {
        return false;
      }
      VersionFound(db.tables, e, v);
      var row := db.tables.versions[id.value];
      RecountVersion(row, -1);
      db.UpdateVersionRow(id.value, row.(state := IsGone,
        history := row.history + [VersionPoint(IsGone, e.seqId, e.entryId, None)]));
      ok := true;
    }

    method UpdateVersion(e: Entry, v: Semver, data: VersionData) returns (ok: bool)
      requires db.Valid() && DbOk(db.Abs())
      modifies db
      ensures ok <==> ReplayUpdateVersion(old(db.Abs()), e, v, data).Some?
      ensures ok ==> db.Settled() && db.Abs() == ReplayUpdateVersion(old(db.Abs()), e, v, data).value
    {
      hide DbOk, DepTableOk, DepCacheOk, Overlay, Recount, IdsAgree, DataAgrees, SameVersion;
      var id := FindVersionRow(e, v);
      if id == None {
        return false;
      }
      VersionFound(db.tables, e, v);
      var row := db.tables.versions[id.value];
      StaleCompare(db.tables.deps, db.depStates, db.needFlush, row, data);
      if !SameVersion(db.tables.deps.rows, row, data) {
        return false;
      }
      if row.state != IsLive {
        RecountVersion(row, 1);
        row := row.(state := IsLive, history := row.history + [VersionPoint(IsLive, e.seqId, e.entryId, None)]);
      }
      if row.extra != data.extra {
        row := row.(extra := data.extra);
      }
      db.UpdateVersionRow(id.value, row);
      ok := true;
    }

    /** A session: the entries of `log` from `from` on, and a flush. It panics exactly where the direct replay of the
        whole log does; otherwise the tables are what that replay gives, and their counts are conserved just when the
        log has no double deletion. */
    method ProcessEntries(log: seq<Entry>, from: nat) returns (ok: bool)
      requires db.Valid() && from <= |log| && ReplayAll(log, from) == Some(db.Abs())
      modifies db
      ensures ok <==> ReplayAll(log, |log|).Some?
      ensures ok ==> db.Valid() && db.needFlush == {} && ReplayAll(log, |log|) == Some(db.tables)
      ensures ok ==> DbOk(db.tables) && (Conserved(db.tables) <==> NoDoubleDelete(log, |log|))
    {
      hide DbOk, Replay, DepCacheOk, DepTableOk, Overlay, IdsAgree, DataAgrees, Conserved;
      for i := from to |log|
        invariant db.Valid() && ReplayAll(log, i) == Some(db.Abs())
      {
        ok := ProcessEntry(log[i]);
        if !ok {
          StaysFailed(log, i + 1, |log|);
          return false;
        }
      }
      db.FlushCaches();
      LogConserves(log, |log|);
      ok := true;
    }
  }

  lemma {:induction false} StaysFailed(log: seq<Entry>, i: nat, n: nat)
    requires i <= n <= |log| && ReplayAll(log, i) == None
    ensures ReplayAll(log, n) == None
  {
    hide DbOk, Replay;
    if i < n {
      StaysFailed(log, i, n - 1);
    }
  }
}
