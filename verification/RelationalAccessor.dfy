/** The accessor with its caches over the tables, and the replay of the diff log through it
    (relational_db_builder/src/relational_db_accessor.rs and lib.rs). */
module RelationalAccessor {
  import opened Optional
  import opened RelationalModel
  import opened RelationalCache

  /** Whatever an LRU cache evicts: some entries stay. */
  function Kept<K, V>(cache: map<K, V>, stay: set<K>): map<K, V> {
    map k | k in cache && k in stay :: cache[k]
  }

  class RelationalDbAccessor {
    var tables: Db
    var packageIds: map<Name, Option<Id>>
    var packageData: map<Name, CachedPackage>
    var versionIds: map<(Id, Semver), Id>
    var depStates: DepStates
    var needFlush: set<Digest>
    const capacity: nat

    /** Cached ids, also the negative ones, and cached rows are those of the tables. */
    ghost predicate CachesAgree()
      reads this
    {
      && IdsAgree(tables.names, packageIds) && DataAgrees(tables.names, tables.packages, packageData)
      && (forall k :: k in versionIds ==> k in tables.versionIds && versionIds[k] == tables.versionIds[k])
    }

    ghost predicate Valid()
      reads this
    {
      DbOk(tables) && Settled()
    }

    /** Everything but the tables being well-formed. */
    ghost predicate Settled()
      reads this
    {
      CachesAgree() && DepsValid()
    }

    ghost predicate DepsValid()
      reads this
    {
      && capacity > 0 && |depStates| <= capacity
      && DepTableOk(tables.deps) && DepCacheOk(tables.deps, depStates, needFlush)
    }

    /** The tables as direct writes would have left them. */
    ghost function Abs(): Db
      reads this
    {
      tables.(deps := Overlay(tables.deps, depStates, needFlush))
    }

    constructor (size: nat)
      requires size > 0
      ensures Valid() && Abs() == EMPTY && tables == EMPTY
    {
      tables := EMPTY;
      packageIds, packageData, versionIds, depStates, needFlush := map[], map[], map[], map[], {};
      capacity := size;
    }

    method PutPackageId(name: Name, id: Option<Id>)
      requires CachesAgree() && id == NameId(tables.names, name)
      modifies this`packageIds
      ensures CachesAgree()
    {
      var stay: set<Name> :| stay <= packageIds.Keys + {name};
      packageIds := Kept(packageIds[name := id], stay);
    }

    method PutPackageData(name: Name, package: CachedPackage)
      requires CachesAgree() && PackageAgrees(tables.names, tables.packages, name, package)
      modifies this`packageData
      ensures CachesAgree()
    {
      var stay: set<Name> :| stay <= packageData.Keys + {name};
      packageData := Kept(packageData[name := package], stay);
    }

    /** `get_package_by_name`; None where it panics. */
    method GetPackageByName(name: Name) returns (r: Option<CachedPackage>)
      requires Valid()
      modifies this`packageIds, this`packageData
      ensures Valid()
      ensures r == if name in tables.names
                   then Some(CachedPackage(tables.names[name], tables.packages[tables.names[name]])) else None
    {
      if name in packageData {
        var package := packageData[name];
        PutPackageId(name, Some(package.id));
        return Some(package);
      }
      if name in packageIds {
        if packageIds[name] == None {
          return None;
        }
        var id := packageIds[name].value;
        var package := CachedPackage(id, tables.packages[id]);
        PutPackageData(package.row.name, package);
        return Some(package);
      }
      if name !in tables.names {
        return None;
      }
      var package := CachedPackage(tables.names[name], tables.packages[tables.names[name]]);
      PutPackageData(package.row.name, package);
      PutPackageId(name, Some(package.id));
      r := Some(package);
    }

    /** `maybe_get_package_id_by_name`. */
    method MaybeGetPackageIdByName(name: Name) returns (r: Option<Id>)
      requires Valid()
      modifies this`packageIds
      ensures Valid() && r == NameId(tables.names, name)
    {
      if name in packageIds {
        return packageIds[name];
      }
      r := if name in tables.names then Some(tables.names[name]) else None;
      PutPackageId(name, r);
    }

    /** `get_version_id_by_semver`; None where it panics. */
    method GetVersionIdBySemver(package: Id, v: Semver) returns (r: Option<Id>)
      requires Valid()
      modifies this`versionIds
      ensures Valid()
      ensures r == if (package, v) in tables.versionIds then Some(tables.versionIds[(package, v)]) else None
    {
      if (package, v) in versionIds {
        return Some(versionIds[(package, v)]);
      }
      if (package, v) !in tables.versionIds {
        return None;
      }
      var id := tables.versionIds[(package, v)];
      var stay: set<(Id, Semver)> :| stay <= versionIds.Keys + {(package, v)};
      versionIds := Kept(versionIds[(package, v) := id], stay);
      r := Some(id);
    }

    /** What an LRU push evicts when the cache is full, which is written back if it is dirty. */
    method Push(h: Digest, state: DependencyState)
      requires DepsValid() && h !in depStates && DepCacheOk(tables.deps, depStates[h := state], needFlush)
      requires Overlay(tables.deps, depStates[h := state], needFlush) == Overlay(tables.deps, depStates, needFlush)
      modifies this`tables, this`depStates, this`needFlush
      ensures DepsValid() && tables == old(tables).(deps := tables.deps)
      ensures Overlay(tables.deps, depStates, needFlush) == old(Overlay(tables.deps, depStates, needFlush))
    {
      hide Overlay, DepTableOk, DepCacheOk, SetCounts;
      if |depStates| < capacity {
        depStates := depStates[h := state];
      } else {
        SomeVictim(depStates);
        var victim :| victim in depStates;
        var evicted := depStates[victim];
        SmallerWithout(depStates, victim, h, state);
        EvictRefines(tables.deps, depStates[h := state], needFlush, victim);
        depStates := depStates[h := state] - {victim};
        if victim in needFlush {
          needFlush := needFlush - {victim};
          IdInTable(tables.deps, old(depStates), old(needFlush), victim);
          tables := tables.(deps := SetCounts(tables.deps, evicted.id, evicted.counts));
        }
        assert needFlush == old(needFlush) - {victim};
      }
    }

    /** `insert_or_inc_dependency`: counted in memory on a hit, in the table on a miss. */
    method InsertOrIncDependency(d: Dependency) returns (id: Id)
      requires DepsValid()
      modifies this`tables, this`depStates, this`needFlush
      ensures DepsValid() && tables == old(tables).(deps := tables.deps) && DepTableOk(old(Abs().deps))
      ensures (Abs().deps, id) == Upsert(old(Abs().deps), d)
    {
      hide Overlay, DepTableOk, DepCacheOk, Upsert;
      var h := d.Hash();
      if h in depStates {
        HitRefines(tables.deps, depStates, needFlush, d);
        SameSize(depStates, h, depStates[h].(counts := Plus(depStates[h].counts, d.counts)));
        needFlush := needFlush + {h};
        depStates := depStates[h := depStates[h].(counts := Plus(depStates[h].counts, d.counts))];
        return depStates[h].id;
      }
      MissRefines(tables.deps, depStates, needFlush, d);
      MissCaches(tables.deps, depStates, needFlush, d);
      MissKeeps(tables.deps, depStates, needFlush, d);
      var (deps, row) := Upsert(tables.deps, d);
      tables := tables.(deps := deps);
      Push(h, DependencyState(row, deps.rows[row].counts));
      id := row;
    }

    /** `insert_or_inc_dependencies`. */
    method InsertOrIncDependencies(ds: seq<Dependency>) returns (ids: seq<Id>)
      requires DepsValid()
      modifies this`tables, this`depStates, this`needFlush
      ensures DepsValid() && tables == old(tables).(deps := tables.deps) && DepTableOk(old(Abs().deps))
      ensures (Abs().deps, ids) == UpsertAll(old(Abs().deps), ds, |ds|)
    {
      hide Overlay, DepTableOk, DepCacheOk, Upsert;
      ids := [];
      OverlayOk(tables.deps, depStates, needFlush);
      for i := 0 to |ds|
        invariant DepsValid() && tables == old(tables).(deps := tables.deps)
        invariant (Abs().deps, ids) == UpsertAll(old(Abs().deps), ds, i)
      {
        var id := InsertOrIncDependency(ds[i]);
        ids := ids + [id];
      }
    }

    /** `flush_caches`: a digest that needs flushing is always cached, and afterwards the tables are what direct
        writes would have left. */
    method FlushCaches()
      requires DepsValid()
      modifies this`tables, this`needFlush
      ensures DepsValid() && needFlush == {} && tables == Abs() == old(Abs())
    {
      var todo := needFlush;
      while todo != {}
        invariant todo <= needFlush && DepsValid() && tables == old(tables).(deps := tables.deps)
        invariant Overlay(tables.deps, depStates, needFlush) == old(Overlay(tables.deps, depStates, needFlush))
        invariant forall h :: h in needFlush - todo ==>
          tables.deps.rows[tables.deps.ids[h]].counts == depStates[h].counts
        decreases todo
      {
        var h :| h in todo;
        var state := depStates[h];
        FlushOne(tables.deps, depStates, needFlush, todo, h);
        tables := tables.(deps := SetCounts(tables.deps, state.id, state.counts));
        todo := todo - {h};
      }
      AllWritten(tables.deps, depStates, needFlush);
      needFlush := {};
    }

    /** `insert_new_package`; false where the unique index refuses the name. A negative cached id is replaced. */
    method InsertNewPackage(row: Package) returns (ok: bool)
      requires Valid()
      modifies this`tables, this`packageIds, this`packageData
      ensures ok <==> row.name !in old(tables).names
      ensures ok ==> Settled() && tables == old(tables).(packages := old(tables).packages + [row],
                                                         names := old(tables).names[row.name := |old(tables).packages|])
    {
      hide DepTableOk, DepCacheOk, VersionOk;
      if row.name in tables.names {
        return false;
      }
      var id := |tables.packages|;
      InsertAgrees(tables, packageIds, packageData, row);
      hide IdsAgree, DataAgrees, Kept, DbOk;
      tables := tables.(packages := tables.packages + [row], names := tables.names[row.name := id]);
      var stay: set<Name> :| stay <= packageIds.Keys + {row.name};
      packageIds := Kept(packageIds[row.name := Some(id)], stay);
      var stayData: set<Name> :| stayData <= packageData.Keys + {row.name};
      packageData := Kept(packageData[row.name := CachedPackage(id, row)], stayData);
      EvictionAgrees(tables, old(packageIds)[row.name := Some(id)],
                     old(packageData)[row.name := CachedPackage(id, row)],
                     stay, stayData);
      ok := true;
    }

    /** `update_package`: the difference is applied to the row, and to the cached row if there is one. */
    method UpdatePackage(id: Id, name: Name, diff: PackageUpdate)
      requires Valid() && name in tables.names && tables.names[name] == id
      modifies this`tables, this`packageData
      ensures Settled()
      ensures tables == old(tables).(packages := old(tables).packages[id := ApplyDiff(old(tables).packages[id], diff)])
    {
      hide DepTableOk, DepCacheOk, VersionOk;
      var entry := if name in packageData then Some(packageData[name]) else None;
      packageData := packageData - {name};
      if entry.Some? {
        var stay: set<Name> :| stay <= packageData.Keys + {name};
        packageData := Kept(packageData[name := entry.value.(row := ApplyDiff(entry.value.row, diff))], stay);
      }
      tables := tables.(packages := tables.packages[id := ApplyDiff(tables.packages[id], diff)]);
    }

    /** `update_deps_missing_pack`. */
    method UpdateDepsMissingPack(name: Name, id: Id)
      requires Valid() && name in tables.names && tables.names[name] == id
      modifies this`tables, this`packageIds
      ensures Settled()
      ensures tables == old(tables).(deps := tables.deps)
      ensures Abs().deps == old(Abs().deps).(rows := Patched(old(Abs().deps).rows, name, id))
    {
      PutPackageId(name, Some(id));
      PatchRefines(tables.deps, depStates, needFlush, name, id);
      tables := tables.(deps := tables.deps.(rows := Patched(tables.deps.rows, name, id)));
    }

    /** `insert_new_version`; false where the unique index refuses the version. */
    method InsertNewVersion(row: Version) returns (ok: bool)
      requires Settled()
      modifies this`tables, this`versionIds
      ensures ok <==> (row.package, row.semver) !in old(tables).versionIds
      ensures ok ==> Settled() && tables == old(tables).(versions := old(tables).versions + [row],
        versionIds := old(tables).versionIds[(row.package, row.semver) := |old(tables).versions|])
    {
      hide DepTableOk, DepCacheOk;
      if (row.package, row.semver) in tables.versionIds {
        return false;
      }
      var key, id := (row.package, row.semver), |tables.versions|;
      tables := tables.(versions := tables.versions + [row], versionIds := tables.versionIds[key := id]);
      var stay: set<(Id, Semver)> :| stay <= versionIds.Keys + {key};
      versionIds := Kept(versionIds[key := id], stay);
      ok := true;
    }

    /** `set_version_extra_metadata`, `delete_version` and `undelete_to_normal_version`. */
    method UpdateVersionRow(id: Id, row: Version)
      requires Settled() && id < |tables.versions|
      modifies this`tables
      ensures Settled() && tables == old(tables).(versions := old(tables).versions[id := row])
    {
      tables := tables.(versions := tables.versions[id := row]);
    }
  }

  lemma IdInTable(t: DepTable, states: DepStates, dirty: set<Digest>, h: Digest)
    requires DepTableOk(t) && DepCacheOk(t, states, dirty) && h in states
    ensures states[h].id < |t.rows|
  {
  }

  /** Patching the rows and patching the rows with their cached counts are the same. */
  lemma PatchRefines(t: DepTable, states: DepStates, dirty: set<Digest>, name: Name, id: Id)
    requires DepTableOk(t) && DepCacheOk(t, states, dirty)
    ensures var u := t.(rows := Patched(t.rows, name, id));
      && DepTableOk(u) && DepCacheOk(u, states, dirty)
      && Overlay(u, states, dirty).rows == Patched(Overlay(t, states, dirty).rows, name, id)
  {
    hide DepTableOk, DepCacheOk, Overlay;
    PatchKeeps(t, states, dirty, name, id);
    PatchOverlay(t, states, dirty, name, id);
  }

  lemma PatchKeeps(t: DepTable, states: DepStates, dirty: set<Digest>, name: Name, id: Id)
    requires DepTableOk(t) && DepCacheOk(t, states, dirty)
    ensures var u := t.(rows := Patched(t.rows, name, id));
      DepTableOk(u) && DepCacheOk(u, states, dirty)
  {
    hide Overlay;
  }

  lemma PatchOverlay(t: DepTable, states: DepStates, dirty: set<Digest>, name: Name, id: Id)
    ensures var u := t.(rows := Patched(t.rows, name, id));
      Overlay(u, states, dirty).rows == Patched(Overlay(t, states, dirty).rows, name, id)
  {
  }

  lemma SameSize(states: DepStates, h: Digest, state: DependencyState)
    requires h in states
    ensures |states[h := state]| == |states|
  {
    assert states[h := state].Keys == states.Keys;
  }

  lemma MissKeeps(t: DepTable, states: DepStates, dirty: set<Digest>, d: Dependency)
    requires DepTableOk(t) && DepCacheOk(t, states, dirty) && d.Hash() !in states
    ensures DepTableOk(Upsert(t, d).0) && DepCacheOk(Upsert(t, d).0, states, dirty)
  {
    UpsertOk(t, d);
  }

  lemma FlushOne(t: DepTable, states: DepStates, dirty: set<Digest>, todo: set<Digest>, h: Digest)
    requires DepTableOk(t) && DepCacheOk(t, states, dirty) && h in todo && todo <= dirty
    requires forall g :: g in dirty - todo ==> t.rows[t.ids[g]].counts == states[g].counts
    ensures var u := SetCounts(t, states[h].id, states[h].counts);
      && DepTableOk(u) && DepCacheOk(u, states, dirty) && Overlay(u, states, dirty) == Overlay(t, states, dirty)
      && forall g :: g in dirty - (todo - {h}) ==> u.rows[u.ids[g]].counts == states[g].counts
  {
    WriteBackRefines(t, states, dirty, h);
  }

  lemma SomeVictim(states: DepStates)
    requires |states| > 0
    ensures exists h :: h in states
  {
    assert states.Keys != {};
  }

  lemma SmallerWithout(states: DepStates, victim: Digest, h: Digest, state: DependencyState)
    requires victim in states && h !in states
    ensures |states[h := state] - {victim}| == |states|
  {
    assert (states[h := state] - {victim}).Keys == states.Keys + {h} - {victim};
  }

  ghost predicate IdsAgree(names: map<Name, Id>, ids: map<Name, Option<Id>>) {
    forall n :: n in ids ==> ids[n] == NameId(names, n)
  }

  ghost predicate DataAgrees(names: map<Name, Id>, packages: seq<Package>, data: map<Name, CachedPackage>) {
    forall n :: n in data ==> PackageAgrees(names, packages, n, data[n])
  }

  /** A new package agrees with what is cached about it, and leaves the rest alone. */
  lemma InsertAgrees(db: Db, ids: map<Name, Option<Id>>, data: map<Name, CachedPackage>, row: Package)
    requires row.name !in db.names && IdsAgree(db.names, ids) && DataAgrees(db.names, db.packages, data)
    ensures var id := |db.packages|;
      var next := db.(packages := db.packages + [row], names := db.names[row.name := id]);
      && IdsAgree(next.names, ids[row.name := Some(id)])
      && DataAgrees(next.names, next.packages, data[row.name := CachedPackage(id, row)])
  {
  }

  lemma EvictionAgrees(db: Db, ids: map<Name, Option<Id>>, data: map<Name, CachedPackage>, a: set<Name>, b: set<Name>)
    requires IdsAgree(db.names, ids) && DataAgrees(db.names, db.packages, data)
    ensures IdsAgree(db.names, Kept(ids, a)) && DataAgrees(db.names, db.packages, Kept(data, b))
  {
  }

  predicate PackageAgrees(names: map<Name, Id>, packages: seq<Package>, n: Name, c: CachedPackage) {
    n in names && names[n] == c.id && c.id < |packages| && packages[c.id] == c.row
  }
}
