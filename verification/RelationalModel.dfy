/** The relational tables and the effect of each diff-log instruction on them, with every write made directly
    (relational_db_builder/src/lib.rs, postgres_db/src/{packages,versions,dependencies}.rs). */
module RelationalModel {
  import opened Optional

  type Name = string

  /** A version number, by its canonical text. */
  type Semver = string
  type Json = string

  /** `other_dist_tags`. */
  type Tags = map<string, Json>
  type Time = int

  /** Rows are numbered from 0 in the order of their insertion. */
  type Id = nat

  /** A SHA-256 digest is modelled as the text it digests. */
  type Digest = string

  // ---------- Dependencies ----------

  datatype Kind = Prod | Dev | Peer | Opt

  datatype Counts = Counts(prod: int, dev: int, peer: int, opt: int) {
    function Get(k: Kind): int {
      match k
      case Prod => prod
      case Dev => dev
      case Peer => peer
      case Opt => opt
    }
  }

  function Plus(a: Counts, b: Counts): Counts {
    Counts(a.prod + b.prod, a.dev + b.dev, a.peer + b.peer, a.opt + b.opt)
  }

  function Unit(k: Kind, n: int): Counts {
    match k
    case Prod => Counts(n, 0, 0, 0)
    case Dev => Counts(0, n, 0, 0)
    case Peer => Counts(0, 0, n, 0)
    case Opt => Counts(0, 0, 0, n)
  }

  datatype Spec = Spec(raw: Json, parsed: Json)

  /** A row of `dependencies`, or one to be inserted. */
  datatype Dependency = Dependency(name: Name, dst: Option<Id>, spec: Spec, counts: Counts) {
    /** `md5digest_with_version`: the digest of the package name followed by the raw spec. */
    function Hash(): Digest {
      name + spec.raw
    }
  }

  /** `mark_as_add`, `mark_as_delete` and `as_new`: the same dependency, counted `n` times under one kind. */
  function MarkAs(d: Dependency, k: Kind, n: int): Dependency {
    d.(counts := Unit(k, n))
  }

  /** The `dependencies` table with its unique index on the digest. */
  datatype DepTable = DepTable(rows: seq<Dependency>, ids: map<Digest, Id>)

  ghost predicate DepTableOk(t: DepTable) {
    && (forall h :: h in t.ids ==> t.ids[h] < |t.rows| && t.rows[t.ids[h]].Hash() == h)
    && (forall i: Id :: i < |t.rows| ==> t.rows[i].Hash() in t.ids && t.ids[t.rows[i].Hash()] == i)
  }

  /** `insert_dependency_inc_counts`: inserts the row, or adds to the counts of the row with its digest. */
  function Upsert(t: DepTable, d: Dependency): (DepTable, Id)
    requires DepTableOk(t)
  {
    if d.Hash() in t.ids then
      var id := t.ids[d.Hash()];
      (t.(rows := t.rows[id := t.rows[id].(counts := Plus(t.rows[id].counts, d.counts))]), id)
    else
      (DepTable(t.rows + [d], t.ids[d.Hash() := |t.rows|]), |t.rows|)
  }

  lemma UpsertOk(t: DepTable, d: Dependency)
    requires DepTableOk(t)
    ensures var (u, id) := Upsert(t, d); DepTableOk(u) && id < |u.rows| && u.rows[id].Hash() == d.Hash()
    ensures Extends(t, Upsert(t, d).0)
  {
  }

  /** Rows stay where they are and keep all but their counts. */
  ghost predicate Extends(t: DepTable, u: DepTable) {
    && |t.rows| <= |u.rows|
    && (forall i: Id :: i < |t.rows| ==> u.rows[i] == t.rows[i].(counts := u.rows[i].counts))
    && (forall h :: h in t.ids ==> h in u.ids && u.ids[h] == t.ids[h])
  }

  /** `insert_or_inc_dependencies`, one after another. */
  function UpsertAll(t: DepTable, ds: seq<Dependency>, n: nat): (r: (DepTable, seq<Id>))
    requires DepTableOk(t) && n <= |ds|
    ensures DepTableOk(r.0) && |r.1| == n && Extends(t, r.0)
    ensures forall i :: 0 <= i < n ==> r.1[i] < |r.0.rows| && r.0.rows[r.1[i]].Hash() == ds[i].Hash()
  {
    if n == 0 then (t, []) else
      var (u, ids) := UpsertAll(t, ds, n - 1);
      UpsertOk(u, ds[n - 1]);
      var (v, id) := Upsert(u, ds[n - 1]);
      (v, ids + [id])
  }

  // ---------- Packages ----------

  datatype PackageState = IsNormal | IsUnpublished | IsDeleted

  datatype PackagePoint = PackagePoint(state: PackageState, seqId: int, entryId: int, time: Option<Time>)

  type Times = map<Semver, Time>

  /** Version times as JSON: the wrapped list of pairs, or a plain object. */
  datatype TimesJson = Wrapped(times: Times) | EmptyObject

  /** A row of `packages`. */
  datatype Package = Package(name: Name, state: PackageState, history: seq<PackagePoint>, latest: Option<Id>,
                             created: Option<Time>, modified: Option<Time>, otherTags: Option<Tags>,
                             otherTimes: Option<TimesJson>, unpublished: Option<Json>)

  datatype PackageData =
    | Normal(latest: Option<Semver>, created: Time, modified: Time, otherTags: Tags, times: Times)
    | Unpublished(created: Time, modified: Time, blob: Json, times: Times)
    | MissingData
    | Deleted

  /** `PackageUpdate`: for each column, the new value if it changes. */
  datatype PackageUpdate = PackageUpdate(state: Option<PackageState>, history: Option<seq<PackagePoint>>,
                                         latest: Option<Option<Id>>, created: Option<Option<Time>>,
                                         modified: Option<Option<Time>>, otherTags: Option<Option<Tags>>,
                                         otherTimes: Option<Option<TimesJson>>, unpublished: Option<Option<Json>>)

  function Change<T(==)>(before: T, after: T): Option<T> {
    if before != after then Some(after) else None
  }

  function Changed<T>(before: T, update: Option<T>): T {
    if update.Some? then update.value else before
  }

  function Diff(before: Package, after: Package): PackageUpdate {
    PackageUpdate(Change(before.state, after.state), Change(before.history, after.history),
                  Change(before.latest, after.latest), Change(before.created, after.created),
                  Change(before.modified, after.modified), Change(before.otherTags, after.otherTags),
                  Change(before.otherTimes, after.otherTimes), Change(before.unpublished, after.unpublished))
  }

  function ApplyDiff(p: Package, u: PackageUpdate): Package {
    Package(p.name, Changed(p.state, u.state), Changed(p.history, u.history), Changed(p.latest, u.latest),
            Changed(p.created, u.created), Changed(p.modified, u.modified), Changed(p.otherTags, u.otherTags),
            Changed(p.otherTimes, u.otherTimes), Changed(p.unpublished, u.unpublished))
  }

  /** Applying the difference of two packages of one name to the first gives the second. */
  lemma DiffThenApply(before: Package, after: Package)
    ensures ApplyDiff(before, Diff(before, after)) == after.(name := before.name)
  {
  }

  /** The row that `create_package` inserts, if `latest` is empty as it asserts. */
  function NewPackageRow(name: Name, data: PackageData, s: int, e: int): Option<Package> {
    match data
    case Normal(latest, created, modified, otherTags, times) =>
      if latest != None then None else
        Some(Package(name, IsNormal, [PackagePoint(IsNormal, s, e, Some(created))], None, Some(created),
                     Some(modified), Some(otherTags), Some(Wrapped(times)), None))
    case Unpublished(created, modified, blob, times) =>
      Some(Package(name, IsUnpublished, [PackagePoint(IsUnpublished, s, e, Some(created))], None, Some(created),
                   Some(modified), None, Some(Wrapped(times)), Some(blob)))
    case _ =>
      Some(Package(name, IsDeleted, [PackagePoint(IsDeleted, s, e, None)], None, None, None, None, None, None))
  }

  /** The row that `update_package` computes. The times of an unpublished package cannot be serialized as an object
      unless there are none, because their keys are not strings. */
  function UpdatedPackageRow(before: Package, data: PackageData, latest: Option<Id>, s: int, e: int): Option<Package> {
    match data
    case Normal(_, created, modified, otherTags, times) =>
      Some(Package(before.name, IsNormal, before.history + [PackagePoint(IsNormal, s, e, Some(modified))], latest,
                   Some(created), Some(modified), Some(otherTags), Some(Wrapped(times)), None))
    case Unpublished(created, modified, blob, times) =>
      if times != map[] then None else
        Some(Package(before.name, IsUnpublished,
                     before.history + [PackagePoint(IsUnpublished, s, e, Some(modified))], before.latest,
                     Some(created), Some(modified), before.otherTags, Some(EmptyObject), Some(blob)))
    case _ =>
      Some(before.(state := IsDeleted, history := before.history + [PackagePoint(IsDeleted, s, e, None)]))
  }

  // ---------- Versions ----------

  datatype VersionState = IsLive | IsGone
  datatype VersionPoint = VersionPoint(state: VersionState, seqId: int, entryId: int, time: Option<Time>)
  datatype Repo = Repo(raw: Json, info: Json)

  /** A row of `versions`: four lists of dependency ids. */
  datatype Version = Version(package: Id, semver: Semver, state: VersionState, history: seq<VersionPoint>,
                             tarball: string, repo: Option<Repo>, created: Time, extra: Json,
                             prod: seq<Id>, dev: seq<Id>, peer: seq<Id>, opt: seq<Id>) {
    function Deps(k: Kind): seq<Id> {
      match k
      case Prod => prod
      case Dev => dev
      case Peer => peer
      case Opt => opt
    }
  }

  /** A dependency as a packument lists it. */
  datatype Listed = Listed(name: Name, spec: Spec)

  datatype VersionData = VersionData(prod: seq<Listed>, dev: seq<Listed>, peer: seq<Listed>, opt: seq<Listed>,
                                     tarball: string, repo: Option<Repo>, time: Time, extra: Json) {
    function Deps(k: Kind): seq<Listed> {
      match k
      case Prod => prod
      case Dev => dev
      case Peer => peer
      case Opt => opt
    }
  }

  predicate UniqueNames(ds: seq<Listed>) {
    forall i, j :: 0 <= i < j < |ds| ==> ds[i].name != ds[j].name
  }

  // ---------- The database ----------

  /** `names` and `versionIds` are the unique indexes of `packages` and `versions`. */
  datatype Db = Db(packages: seq<Package>, names: map<Name, Id>, versions: seq<Version>,
                   versionIds: map<(Id, Semver), Id>, deps: DepTable)

  const EMPTY: Db := Db([], map[], [], map[], DepTable([], map[]))

  predicate InRows(rows: seq<Dependency>, ids: seq<Id>) {
    forall i :: 0 <= i < |ids| ==> ids[i] < |rows|
  }

  ghost predicate VersionOk(db: Db, v: Version) {
    && v.package < |db.packages|
    && (forall k :: InRows(db.deps.rows, v.Deps(k)))
  }

  predicate VersionAt(db: Db, id: Id, package: Id, v: Semver) {
    id < |db.versions| && db.versions[id].package == package && db.versions[id].semver == v
  }

  ghost predicate DbOk(db: Db) {
    && DepTableOk(db.deps)
    && (forall n :: n in db.names ==> db.names[n] < |db.packages| && db.packages[db.names[n]].name == n)
    && (forall p: Id :: p < |db.packages| ==>
         db.packages[p].name in db.names && db.names[db.packages[p].name] == p)
    && (forall k :: k in db.versionIds ==> VersionAt(db, db.versionIds[k], k.0, k.1))
    && (forall v: Id :: v < |db.versions| ==> VersionOk(db, db.versions[v]))
  }

  // ---------- Instructions ----------

  datatype Instr =
    | CreatePackage(data: PackageData)
    | UpdatePackage(data: PackageData)
    | PatchPackageReferences
    | CreateVersion(v: Semver, vdata: VersionData)
    | UpdateVersion(v: Semver, vdata: VersionData)
    | DeleteVersion(v: Semver)

  /** An entry of the diff log. */
  datatype Entry = Entry(package: Name, instr: Instr, seqId: int, entryId: int)

  function NameId(names: map<Name, Id>, n: Name): Option<Id> {
    if n in names then Some(names[n]) else None
  }

  function ReplayCreatePackage(db: Db, e: Entry, data: PackageData): Option<Db> {
    var row := NewPackageRow(e.package, data, e.seqId, e.entryId);
    if row == None || e.package in db.names then None
    else Some(db.(packages := db.packages + [row.value], names := db.names[e.package := |db.packages|]))
  }

  /** The id of the version that `latest` names; an unknown one makes the replay panic. */
  function LatestId(db: Db, package: Id, data: PackageData): Option<Option<Id>> {
    if !data.Normal? || data.latest == None then Some(None)
    else if (package, data.latest.value) !in db.versionIds then None
    else Some(Some(db.versionIds[(package, data.latest.value)]))
  }

  function ReplayUpdatePackage(db: Db, e: Entry, data: PackageData): Option<Db>
    requires DbOk(db)
  {
    if e.package !in db.names then None else
      var id := db.names[e.package];
      var latest := LatestId(db, id, data);
      if latest == None then None else
        var row := UpdatedPackageRow(db.packages[id], data, latest.value, e.seqId, e.entryId);
        if row == None then None else Some(db.(packages := db.packages[id := row.value]))
  }

  /** `update_deps_missing_pack`. */
  function Patched(rows: seq<Dependency>, name: Name, id: Id): (r: seq<Dependency>)
    ensures |r| == |rows|
    ensures forall i :: 0 <= i < |rows| ==>
      r[i] == if rows[i].name == name && rows[i].dst == None then rows[i].(dst := Some(id)) else rows[i]
  {
    seq(|rows|, i requires 0 <= i < |rows| =>
      if rows[i].name == name && rows[i].dst == None then rows[i].(dst := Some(id)) else rows[i])
  }

  function ReplayPatch(db: Db, e: Entry): Option<Db> {
    if e.package !in db.names then None
    else Some(db.(deps := db.deps.(rows := Patched(db.deps.rows, e.package, db.names[e.package]))))
  }

  /** `NewDependency::create` for each listed dependency. */
  function NewDeps(names: map<Name, Id>, ds: seq<Listed>, k: Kind): (r: seq<Dependency>)
    ensures |r| == |ds|
    ensures forall i :: 0 <= i < |ds| ==>
      r[i] == Dependency(ds[i].name, NameId(names, ds[i].name), ds[i].spec, Unit(k, 1))
  {
    seq(|ds|, i requires 0 <= i < |ds| =>
      Dependency(ds[i].name, NameId(names, ds[i].name), ds[i].spec, Unit(k, 1)))
  }

  function AllNewDeps(names: map<Name, Id>, data: VersionData): seq<Dependency> {
    NewDeps(names, data.prod, Prod) + NewDeps(names, data.dev, Dev) + NewDeps(names, data.peer, Peer)
      + NewDeps(names, data.opt, Opt)
  }

  /** The kinds under which the dependencies of `AllNewDeps` are listed. */
  function AllKinds(data: VersionData): (r: seq<Kind>)
    ensures |r| == |data.prod| + |data.dev| + |data.peer| + |data.opt|
  {
    seq(|data.prod|, _ => Prod) + seq(|data.dev|, _ => Dev) + seq(|data.peer|, _ => Peer)
      + seq(|data.opt|, _ => Opt)
  }

  /** Of the first `n` ids, those of kind `k`. */
  function OfKind(ids: seq<Id>, kinds: seq<Kind>, n: nat, k: Kind): seq<Id>
    requires n <= |ids| && n <= |kinds|
  {
    if n == 0 then [] else OfKind(ids, kinds, n - 1, k) + if kinds[n - 1] == k then [ids[n - 1]] else []
  }

  function NewVersionRow(package: Id, v: Semver, data: VersionData, ids: seq<Id>, s: int, e: int): Version
    requires |ids| == |AllKinds(data)|
  {
    var kinds := AllKinds(data);
    Version(package, v, IsLive, [VersionPoint(IsLive, s, e, Some(data.time))], data.tarball, data.repo, data.time,
            data.extra, OfKind(ids, kinds, |ids|, Prod), OfKind(ids, kinds, |ids|, Dev),
            OfKind(ids, kinds, |ids|, Peer), OfKind(ids, kinds, |ids|, Opt))
  }

  predicate AllUnique(data: VersionData) {
    UniqueNames(data.prod) && UniqueNames(data.dev) && UniqueNames(data.peer) && UniqueNames(data.opt)
  }

  function ReplayCreateVersion(db: Db, e: Entry, v: Semver, data: VersionData): Option<Db>
    requires DbOk(db)
  {
    if !AllUnique(data) || e.package !in db.names || (db.names[e.package], v) in db.versionIds then None else
      var id, news := db.names[e.package], AllNewDeps(db.names, data);
      var (deps, ids) := UpsertAll(db.deps, news, |news|);
      Some(db.(deps := deps, versions := db.versions + [NewVersionRow(id, v, data, ids, e.seqId, e.entryId)],
               versionIds := db.versionIds[(id, v) := |db.versions|]))
  }

  /** The version that an instruction names. */
  function FindVersion(db: Db, e: Entry, v: Semver): Option<Id> {
    if e.package in db.names && (db.names[e.package], v) in db.versionIds
    then Some(db.versionIds[(db.names[e.package], v)]) else None
  }

  /** The dependencies with these ids, to be counted `n` times under one kind. */
  function Marks(rows: seq<Dependency>, ids: seq<Id>, k: Kind, n: int): (r: seq<Dependency>)
    requires InRows(rows, ids)
    ensures |r| == |ids| && forall i :: 0 <= i < |ids| ==> r[i] == MarkAs(rows[ids[i]], k, n)
  {
    seq(|ids|, i requires 0 <= i < |ids| => MarkAs(rows[ids[i]], k, n))
  }

  /** Counts all the dependencies of a version up or down; the rows are all read before the first is written. */
  function Recount(t: DepTable, v: Version, n: int): (u: DepTable)
    requires DepTableOk(t) && forall k :: InRows(t.rows, v.Deps(k))
    ensures DepTableOk(u)
  {
    assert v.Deps(Prod) == v.prod && v.Deps(Dev) == v.dev && v.Deps(Peer) == v.peer && v.Deps(Opt) == v.opt;
    var a := UpsertAll(t, Marks(t.rows, v.prod, Prod, n), |v.prod|).0;
    var b := UpsertAll(a, Marks(t.rows, v.dev, Dev, n), |v.dev|).0;
    var c := UpsertAll(b, Marks(t.rows, v.peer, Peer, n), |v.peer|).0;
    UpsertAll(c, Marks(t.rows, v.opt, Opt, n), |v.opt|).0
  }

  lemma ExtendsTwice(t: DepTable, u: DepTable, v: DepTable)
    requires Extends(t, u) && Extends(u, v)
    ensures Extends(t, v)
  {
  }

  lemma RecountExtends(t: DepTable, v: Version, n: int)
    requires DepTableOk(t) && forall k :: InRows(t.rows, v.Deps(k))
    ensures Extends(t, Recount(t, v, n))
  {
    hide DepTableOk, Extends;
    assert v.Deps(Prod) == v.prod && v.Deps(Dev) == v.dev && v.Deps(Peer) == v.peer && v.Deps(Opt) == v.opt;
    var a := UpsertAll(t, Marks(t.rows, v.prod, Prod, n), |v.prod|).0;
    var b := UpsertAll(a, Marks(t.rows, v.dev, Dev, n), |v.dev|).0;
    var c := UpsertAll(b, Marks(t.rows, v.peer, Peer, n), |v.peer|).0;
    var d := UpsertAll(c, Marks(t.rows, v.opt, Opt, n), |v.opt|).0;
    ExtendsTwice(t, a, b);
    ExtendsTwice(t, b, c);
    ExtendsTwice(t, c, d);
  }

  function ReplayDeleteVersion(db: Db, e: Entry, v: Semver): Option<Db>
    requires DbOk(db)
  {
    var id := FindVersion(db, e, v);
    if id == None then None else
      var row := db.versions[id.value];
      Some(db.(deps := Recount(db.deps, row, -1),
               versions := db.versions[id.value := row.(state := IsGone,
                 history := row.history + [VersionPoint(IsGone, e.seqId, e.entryId, None)])]))
  }

  /** `assert_dep_eq` for two lists. */
  predicate SameDeps(rows: seq<Dependency>, ids: seq<Id>, ds: seq<Listed>)
    requires InRows(rows, ids)
  {
    && |ids| == |ds|
    && forall i :: 0 <= i < |ids| ==> rows[ids[i]].name == ds[i].name && rows[ids[i]].spec == ds[i].spec
  }

  /** What `update_version` asserts to be unchanged. */
  predicate SameVersion(rows: seq<Dependency>, v: Version, data: VersionData)
    requires forall k :: InRows(rows, v.Deps(k))
  {
    assert v.Deps(Prod) == v.prod && v.Deps(Dev) == v.dev && v.Deps(Peer) == v.peer && v.Deps(Opt) == v.opt;
    SameDeps(rows, v.prod, data.prod) && SameDeps(rows, v.dev, data.dev)
    && SameDeps(rows, v.peer, data.peer) && SameDeps(rows, v.opt, data.opt)
    && v.tarball == data.tarball && v.repo == data.repo
  }

  /** `update_version` revives a deleted version, and replaces the extra metadata. */
  function ReplayUpdateVersion(db: Db, e: Entry, v: Semver, data: VersionData): Option<Db>
    requires DbOk(db)
  {
    var id := FindVersion(db, e, v);
    if id == None then None else
      var row := db.versions[id.value];
      if !SameVersion(db.deps.rows, row, data) then None
      else if row.state == IsLive then Some(db.(versions := db.versions[id.value := row.(extra := data.extra)]))
      else
        Some(db.(deps := Recount(db.deps, row, 1),
                 versions := db.versions[id.value := row.(state := IsLive, extra := data.extra,
                   history := row.history + [VersionPoint(IsLive, e.seqId, e.entryId, None)])]))
  }

  /** What an entry does to the tables, or None where the program panics. */
  function Replay(db: Db, e: Entry): Option<Db>
    requires DbOk(db)
  {
    match e.instr
    case CreatePackage(data) => ReplayCreatePackage(db, e, data)
    case UpdatePackage(data) => ReplayUpdatePackage(db, e, data)
    case PatchPackageReferences => ReplayPatch(db, e)
    case CreateVersion(v, data) => ReplayCreateVersion(db, e, v, data)
    case UpdateVersion(v, data) => ReplayUpdateVersion(db, e, v, data)
    case DeleteVersion(v) => ReplayDeleteVersion(db, e, v)
  }
}
