/** How a package snapshot becomes diff-log instructions, and how the builder's state follows them
    (diff_log_builder/src/lib.rs, postgres_db/src/diff_log/internal_diff_log_state/manager.rs). */
module DiffLogModel {
  import opened Optional
  import opened RelationalModel

  /** Hashes are injective: a hash is modelled as what was hashed. */
  datatype Hash = OfPackage(data: PackageData) | OfVersion(vdata: VersionData)

  datatype VersionInfo = VersionInfo(hash: Hash, deleted: bool)
  datatype PackageInfo = PackageInfo(hash: Option<Hash>, versions: map<Semver, VersionInfo>)

  /** What has to be done with a package's row when the batch ends. */
  datatype FlushOp = Nothing | CreateRow | SetRow

  datatype Local = Local(state: Option<PackageInfo>, flush: FlushOp)

  /** `NewDiffLogEntryWithHash`, without the package name and sequence number. */
  datatype Hashed = Hashed(instr: Instr, hash: Option<Hash>)

  type Versions = map<Semver, VersionData>

  // ---------- The manager ----------

  function Bump(f: FlushOp): FlushOp {
    if f == CreateRow then CreateRow else SetRow
  }

  /** `apply_diff_entry`; None where it panics. Updating or deleting a version sets no flush operation, and nothing
      ever clears `deleted`. */
  function Apply(l: Local, d: Hashed): Option<Local> {
    match d.instr
    case CreatePackage(_) =>
      if l.state.Some? || l.flush != Nothing then None
      else Some(Local(Some(PackageInfo(d.hash, map[])), CreateRow))
    case UpdatePackage(_) =>
      if l.state == None || d.hash == None then None
      else Some(Local(Some(l.state.value.(hash := d.hash)), Bump(l.flush)))
    case PatchPackageReferences => Some(l)
    case CreateVersion(v, _) =>
      if l.state == None || d.hash == None || v in l.state.value.versions then None
      else Some(Local(Some(WithVersion(l.state.value, v, VersionInfo(d.hash.value, false))), Bump(l.flush)))
    case UpdateVersion(v, _) =>
      if l.state == None || d.hash == None || v !in l.state.value.versions then None
      else Some(l.(state := Some(WithVersion(l.state.value, v, l.state.value.versions[v].(hash := d.hash.value)))))
    case DeleteVersion(v) =>
      if l.state == None || d.hash.Some? || v !in l.state.value.versions then None
      else Some(l.(state := Some(WithVersion(l.state.value, v, l.state.value.versions[v].(deleted := true)))))
  }

  function WithVersion(p: PackageInfo, v: Semver, info: VersionInfo): PackageInfo {
    p.(versions := p.versions[v := info])
  }

  function ApplyAll(l: Local, ds: seq<Hashed>): Option<Local>
    decreases |ds|
  {
    if ds == [] then Some(l) else
      var before := ApplyAll(l, ds[..|ds| - 1]);
      if before == None then None else Apply(before.value, ds[|ds| - 1])
  }

  // ---------- The instructions for a change ----------

  /** What a version needs, given what is known of it and what the snapshot has. */
  function VersionInstr(known: map<Semver, VersionInfo>, snap: Versions, v: Semver): seq<Hashed> {
    if v !in snap then
      if v in known && !known[v].deleted then [Hashed(DeleteVersion(v), None)] else []
    else if v !in known then [Hashed(CreateVersion(v, snap[v]), Some(OfVersion(snap[v])))]
    else if known[v].hash != OfVersion(snap[v]) then [Hashed(UpdateVersion(v, snap[v]), Some(OfVersion(snap[v])))]
    else []
  }

  /** The instructions for the first `n` versions. */
  function VersionInstrs(known: map<Semver, VersionInfo>, snap: Versions, order: seq<Semver>, n: nat): seq<Hashed>
    requires n <= |order|
  {
    if n == 0 then [] else VersionInstrs(known, snap, order, n - 1) + VersionInstr(known, snap, order[n - 1])
  }

  /** `pack_data_set_latest_to_none`. */
  function WithoutLatest(data: PackageData): PackageData {
    if data.Normal? then data.(latest := None) else data
  }

  /** The instructions that `process_change` emits; `order` is the order in which it visits the versions. */
  function ChangeInstrs(state: Option<PackageInfo>, data: PackageData, snap: Versions, order: seq<Semver>)
    : seq<Hashed>
  {
    match state
    case Some(info) =>
      VersionInstrs(info.versions, snap, order, |order|)
      + (if info.hash != Some(OfPackage(data)) then [Hashed(UpdatePackage(data), Some(OfPackage(data)))] else [])
    case None =>
      [Hashed(CreatePackage(WithoutLatest(data)), if data.Normal? then None else Some(OfPackage(data)))]
      + VersionInstrs(map[], snap, order, |order|)
      + (if data.Normal? then [Hashed(UpdatePackage(data), Some(OfPackage(data)))] else [])
      + [Hashed(PatchPackageReferences, None)]
  }

  function KnownVersions(state: Option<PackageInfo>): map<Semver, VersionInfo> {
    if state.Some? then state.value.versions else map[]
  }

  /** The versions that are known or in the snapshot, each once. */
  ghost predicate Visits(order: seq<Semver>, known: map<Semver, VersionInfo>, snap: Versions) {
    && (forall i, j :: 0 <= i < j < |order| ==> order[i] != order[j])
    && (forall v :: v in order <==> v in known || v in snap)
  }

  /** Between changes, a known package has a hash, and an unknown one nothing to flush. */
  predicate LocalOk(l: Local) {
    if l.state.Some? then l.state.value.hash.Some? else l.flush == Nothing
  }

  // ---------- What a change leads to ----------

  function FinalVersion(known: map<Semver, VersionInfo>, snap: Versions, v: Semver): VersionInfo
    requires v in known || v in snap
  {
    if v in snap then VersionInfo(OfVersion(snap[v]), v in known && known[v].deleted)
    else known[v].(deleted := true)
  }

  /** After a change every version of the snapshot has its hash, and every other known version is deleted. */
  function Converged(known: map<Semver, VersionInfo>, data: PackageData, snap: Versions): PackageInfo {
    PackageInfo(Some(OfPackage(data)),
                map v | v in known.Keys + snap.Keys :: FinalVersion(known, snap, v))
  }

  /** The state of the versions once the first `n` have been visited. */
  function Progress(known: map<Semver, VersionInfo>, snap: Versions, order: seq<Semver>, n: nat)
    : map<Semver, VersionInfo>
    requires n <= |order|
  {
    if n == 0 then known
    else if order[n - 1] !in known && order[n - 1] !in snap then Progress(known, snap, order, n - 1)
    else Progress(known, snap, order, n - 1)[order[n - 1] := FinalVersion(known, snap, order[n - 1])]
  }

  predicate Among(order: seq<Semver>, n: nat, v: Semver)
    requires n <= |order|
  {
    exists i :: 0 <= i < n && order[i] == v
  }

  lemma {:induction false} ProgressAt(known: map<Semver, VersionInfo>, snap: Versions, order: seq<Semver>, n: nat,
                                      v: Semver)
    requires n <= |order| && forall i :: 0 <= i < |order| ==> order[i] in known || order[i] in snap
    ensures v in Progress(known, snap, order, n) <==> v in known || Among(order, n, v)
    ensures Among(order, n, v) ==> Progress(known, snap, order, n)[v] == FinalVersion(known, snap, v)
    ensures !Among(order, n, v) && v in known ==> Progress(known, snap, order, n)[v] == known[v]
  {
    if n > 0 {
      ProgressAt(known, snap, order, n - 1, v);
      if Among(order, n, v) {
        var i :| 0 <= i < n && order[i] == v;
        assert i < n - 1 ==> Among(order, n - 1, v);
      }
      if order[n - 1] == v {
        assert Among(order, n, v);
      }
    }
  }

  lemma ProgressDone(known: map<Semver, VersionInfo>, data: PackageData, snap: Versions, order: seq<Semver>)
    requires Visits(order, known, snap)
    ensures Progress(known, snap, order, |order|) == Converged(known, data, snap).versions
  {
    forall v ensures
      (v in Progress(known, snap, order, |order|) <==> v in known || v in snap)
      && (v in known || v in snap ==>
           Progress(known, snap, order, |order|)[v] == FinalVersion(known, snap, v))
    {
      ProgressAt(known, snap, order, |order|, v);
      assert v in order <==> Among(order, |order|, v);
    }
  }

  /** The flush operation once the first `n` versions have been visited. */
  function FlushAfter(f: FlushOp, known: map<Semver, VersionInfo>, snap: Versions, order: seq<Semver>, n: nat): FlushOp
    requires n <= |order|
  {
    if n == 0 then f
    else
      var before := FlushAfter(f, known, snap, order, n - 1);
      if order[n - 1] in snap && order[n - 1] !in known then Bump(before) else before
  }

  lemma {:induction false} ApplyConcat(l: Local, a: seq<Hashed>, b: seq<Hashed>)
    requires ApplyAll(l, a).Some?
    ensures ApplyAll(l, a + b) == ApplyAll(ApplyAll(l, a).value, b)
    decreases |b|
  {
    if b == [] {
      assert a + b == a;
    } else {
      assert (a + b)[..|a + b| - 1] == a + b[..|b| - 1];
      ApplyConcat(l, a, b[..|b| - 1]);
    }
  }

  lemma ApplyOne(l: Local, d: Hashed)
    ensures ApplyAll(l, [d]) == Apply(l, d)
  {
    assert [d][..0] == [];
  }

  /** Visiting one version never fails, and brings it to its final state. */
  lemma VisitApplies(l: Local, known: map<Semver, VersionInfo>, snap: Versions, order: seq<Semver>, n: nat)
    requires Visits(order, known, snap) && 0 < n <= |order| && l.state.Some?
    requires l.state.value.versions == Progress(known, snap, order, n - 1)
    ensures ApplyAll(l, VersionInstr(known, snap, order[n - 1]))
         == Some(Local(Some(l.state.value.(versions := Progress(known, snap, order, n))),
                       if order[n - 1] in snap && order[n - 1] !in known then Bump(l.flush) else l.flush))
  {
    var v, before, after := order[n - 1], Progress(known, snap, order, n - 1), Progress(known, snap, order, n);
    ProgressAt(known, snap, order, n - 1, v);
    assert !Among(order, n - 1, v);
    var ds := VersionInstr(known, snap, v);
    if ds == [] {
      assert after == before;
    } else {
      ApplyOne(l, ds[0]);
    }
  }

  /** Visiting the versions never fails, whatever the order, and follows their progress. */
  lemma {:induction false} VersionsApply(l: Local, known: map<Semver, VersionInfo>, snap: Versions, order: seq<Semver>,
                                         n: nat)
    requires Visits(order, known, snap) && n <= |order| && l.state.Some? && l.state.value.versions == known
    ensures ApplyAll(l, VersionInstrs(known, snap, order, n))
         == Some(Local(Some(l.state.value.(versions := Progress(known, snap, order, n))),
                       FlushAfter(l.flush, known, snap, order, n)))
  {
    hide Visits, VersionInstr, Apply, FinalVersion;
    if n > 0 {
      VersionsApply(l, known, snap, order, n - 1);
      var before := ApplyAll(l, VersionInstrs(known, snap, order, n - 1)).value;
      VisitApplies(before, known, snap, order, n);
      ApplyConcat(l, VersionInstrs(known, snap, order, n - 1), VersionInstr(known, snap, order[n - 1]));
    }
  }

  /** A change that makes a package's row be written: new package data, or a new version. */
  ghost predicate NeedsRow(info: PackageInfo, data: PackageData, snap: Versions) {
    info.hash != Some(OfPackage(data)) || exists v :: v in snap && v !in info.versions
  }

  ghost function FlushOf(l: Local, data: PackageData, snap: Versions): FlushOp {
    if l.state == None then CreateRow
    else if NeedsRow(l.state.value, data, snap) then Bump(l.flush) else l.flush
  }

  predicate AnyNew(known: map<Semver, VersionInfo>, snap: Versions, order: seq<Semver>, n: nat)
    requires n <= |order|
  {
    exists i :: 0 <= i < n && order[i] in snap && order[i] !in known
  }

  lemma {:induction false} FlushAfterIs(f: FlushOp, known: map<Semver, VersionInfo>, snap: Versions,
                                        order: seq<Semver>, n: nat)
    requires n <= |order|
    ensures FlushAfter(f, known, snap, order, n) == if AnyNew(known, snap, order, n) then Bump(f) else f
  {
    if n > 0 {
      FlushAfterIs(f, known, snap, order, n - 1);
      if AnyNew(known, snap, order, n) {
        var i :| 0 <= i < n && order[i] in snap && order[i] !in known;
        assert i < n - 1 ==> AnyNew(known, snap, order, n - 1);
      }
      if order[n - 1] in snap && order[n - 1] !in known {
        assert AnyNew(known, snap, order, n);
      }
    }
  }

  lemma AnyNewIs(known: map<Semver, VersionInfo>, snap: Versions, order: seq<Semver>)
    requires Visits(order, known, snap)
    ensures AnyNew(known, snap, order, |order|) <==> exists v :: v in snap && v !in known
  {
    if v :| v in snap && v !in known {
      assert v in order;
    }
  }

  lemma ApplyUpdate(l: Local, data: PackageData)
    requires l.state.Some?
    ensures ApplyAll(l, [Hashed(UpdatePackage(data), Some(OfPackage(data)))])
         == Some(Local(Some(l.state.value.(hash := Some(OfPackage(data)))), Bump(l.flush)))
  {
    ApplyOne(l, Hashed(UpdatePackage(data), Some(OfPackage(data))));
  }

  /** A change of a known package never makes the manager panic, and leads to the snapshot. */
  lemma KnownChangeApplies(l: Local, data: PackageData, snap: Versions, order: seq<Semver>)
    requires l.state.Some? && Visits(order, l.state.value.versions, snap)
    ensures ApplyAll(l, ChangeInstrs(l.state, data, snap, order))
         == Some(Local(Some(Converged(l.state.value.versions, data, snap)), FlushOf(l, data, snap)))
  {
    hide Visits, VersionInstr, AnyNew, Apply, FinalVersion;
    var known, info := l.state.value.versions, l.state.value;
    var vs := VersionInstrs(known, snap, order, |order|);
    VersionsApply(l, known, snap, order, |order|);
    ProgressDone(known, data, snap, order);
    FlushAfterIs(l.flush, known, snap, order, |order|);
    AnyNewIs(known, snap, order);
    if info.hash != Some(OfPackage(data)) {
      var d := Hashed(UpdatePackage(data), Some(OfPackage(data)));
      ApplyConcat(l, vs, [d]);
      ApplyUpdate(ApplyAll(l, vs).value, data);
    } else {
      assert vs + [] == vs;
    }
  }

  /** So does the first change of a package. */
  lemma NewChangeApplies(data: PackageData, snap: Versions, order: seq<Semver>)
    requires Visits(order, map[], snap)
    ensures ApplyAll(Local(None, Nothing), ChangeInstrs(None, data, snap, order))
         == Some(Local(Some(Converged(map[], data, snap)), CreateRow))
  {
    hide Visits, VersionInstr, AnyNew, FinalVersion;
    var l := Local(None, Nothing);
    var create := Hashed(CreatePackage(WithoutLatest(data)), if data.Normal? then None else Some(OfPackage(data)));
    var vs := VersionInstrs(map[], snap, order, |order|);
    var update := if data.Normal? then [Hashed(UpdatePackage(data), Some(OfPackage(data)))] else [];
    var patch := Hashed(PatchPackageReferences, None);
    ApplyOne(l, create);
    var a := Apply(l, create).value;
    ApplyConcat(l, [create], vs);
    VersionsApply(a, map[], snap, order, |order|);
    ProgressDone(map[], data, snap, order);
    FlushAfterIs(CreateRow, map[], snap, order, |order|);
    var b := ApplyAll(a, vs).value;
    ApplyConcat(l, [create] + vs, update);
    if data.Normal? {
      ApplyUpdate(b, data);
    }
    ApplyConcat(l, [create] + vs + update, [patch]);
    ApplyOne(ApplyAll(b, update).value, patch);
  }

  /** The change leads to the snapshot, and no unwrap or assertion of the manager fails on the way. */
  lemma ChangeApplies(l: Local, data: PackageData, snap: Versions, order: seq<Semver>)
    requires LocalOk(l) && Visits(order, KnownVersions(l.state), snap)
    ensures ApplyAll(l, ChangeInstrs(l.state, data, snap, order))
         == Some(Local(Some(Converged(KnownVersions(l.state), data, snap)), FlushOf(l, data, snap)))
  {
    hide Visits, ChangeInstrs, Converged;
    if l.state == None {
      NewChangeApplies(data, snap, order);
    } else {
      KnownChangeApplies(l, data, snap, order);
    }
  }

  // ---------- Convergence ----------

  lemma {:induction false} NothingToDo(known: map<Semver, VersionInfo>, snap: Versions, order: seq<Semver>, n: nat)
    requires n <= |order| && forall v :: VersionInstr(known, snap, v) == []
    ensures VersionInstrs(known, snap, order, n) == []
  {
    hide VersionInstr;
    if n > 0 {
      NothingToDo(known, snap, order, n - 1);
    }
  }

  /** Reprocessing a change emits nothing. */
  lemma ReprocessingIsQuiet(known: map<Semver, VersionInfo>, data: PackageData, snap: Versions, order: seq<Semver>)
    ensures ChangeInstrs(Some(Converged(known, data, snap)), data, snap, order) == []
  {
    var after := Converged(known, data, snap).versions;
    forall v ensures VersionInstr(after, snap, v) == [] {
    }
    NothingToDo(after, snap, order, |order|);
  }

  // ---------- Replayability ----------

  /** What a log has created of one package: nothing, or the package and these versions. */
  type Created = Option<set<Semver>>

  /** The entry refers to what was created before it, and creates nothing twice. */
  predicate CanReplay(c: Created, instr: Instr) {
    match instr
    case CreatePackage(data) => c == None && (data.Normal? ==> data.latest == None)
    case UpdatePackage(data) =>
      c.Some? && (data.Normal? && data.latest.Some? ==> data.latest.value in c.value)
    case PatchPackageReferences => c.Some?
    case CreateVersion(v, _) => c.Some? && v !in c.value
    case UpdateVersion(v, _) => c.Some? && v in c.value
    case DeleteVersion(v) => c.Some? && v in c.value
  }

  function AfterReplay(c: Created, instr: Instr): Created {
    match instr
    case CreatePackage(_) => Some({})
    case CreateVersion(v, _) => if c.Some? then Some(c.value + {v}) else c
    case _ => c
  }

  function CreatedBy(c: Created, ds: seq<Hashed>): Created
    decreases |ds|
  {
    if ds == [] then c else AfterReplay(CreatedBy(c, ds[..|ds| - 1]), ds[|ds| - 1].instr)
  }

  predicate AllReplay(c: Created, ds: seq<Hashed>)
    decreases |ds|
  {
    ds == [] || (AllReplay(c, ds[..|ds| - 1]) && CanReplay(CreatedBy(c, ds[..|ds| - 1]), ds[|ds| - 1].instr))
  }

  function CreatedIn(state: Option<PackageInfo>): Created {
    if state.Some? then Some(state.value.versions.Keys) else None
  }

  /** The latest version of a snapshot is one of its versions. */
  predicate SnapshotOk(data: PackageData, snap: Versions) {
    && (data.Normal? && data.latest.Some? ==> data.latest.value in snap)
    && (!data.Normal? ==> snap == map[])
  }

  lemma {:induction false} ReplayConcat(c: Created, a: seq<Hashed>, b: seq<Hashed>)
    ensures CreatedBy(c, a + b) == CreatedBy(CreatedBy(c, a), b)
    ensures AllReplay(c, a + b) <==> AllReplay(c, a) && AllReplay(CreatedBy(c, a), b)
    decreases |b|
  {
    if b == [] {
      assert a + b == a;
    } else {
      assert (a + b)[..|a + b| - 1] == a + b[..|b| - 1];
      ReplayConcat(c, a, b[..|b| - 1]);
    }
  }

  lemma ReplayOne(c: Created, d: Hashed)
    ensures CreatedBy(c, [d]) == AfterReplay(c, d.instr) && (AllReplay(c, [d]) <==> CanReplay(c, d.instr))
  {
    assert [d][..0] == [];
  }

  lemma VisitReplays(known: map<Semver, VersionInfo>, snap: Versions, order: seq<Semver>, n: nat)
    requires Visits(order, known, snap) && 0 < n <= |order|
    ensures var c := Some(Progress(known, snap, order, n - 1).Keys);
      var ds := VersionInstr(known, snap, order[n - 1]);
      AllReplay(c, ds) && CreatedBy(c, ds) == Some(Progress(known, snap, order, n).Keys)
  {
    var v, before, after := order[n - 1], Progress(known, snap, order, n - 1), Progress(known, snap, order, n);
    ProgressAt(known, snap, order, n - 1, v);
    assert !Among(order, n - 1, v);
    var ds := VersionInstr(known, snap, v);
    assert after.Keys == before.Keys + {v};
    if ds != [] {
      ReplayOne(Some(before.Keys), ds[0]);
    }
    if v in known {
      assert before.Keys + {v} == before.Keys;
    }
  }

  lemma {:induction false} VersionsReplay(known: map<Semver, VersionInfo>, snap: Versions, order: seq<Semver>, n: nat)
    requires Visits(order, known, snap) && n <= |order|
    ensures var ds := VersionInstrs(known, snap, order, n);
      AllReplay(Some(known.Keys), ds) && CreatedBy(Some(known.Keys), ds) == Some(Progress(known, snap, order, n).Keys)
  {
    hide Visits, VersionInstr, FinalVersion, CanReplay, AfterReplay;
    if n > 0 {
      VersionsReplay(known, snap, order, n - 1);
      VisitReplays(known, snap, order, n);
      ReplayConcat(Some(known.Keys), VersionInstrs(known, snap, order, n - 1), VersionInstr(known, snap, order[n - 1]));
    }
  }

  lemma KnownChangeReplays(info: PackageInfo, data: PackageData, snap: Versions, order: seq<Semver>)
    requires SnapshotOk(data, snap) && Visits(order, info.versions, snap)
    ensures var c, ds := CreatedIn(Some(info)), ChangeInstrs(Some(info), data, snap, order);
      AllReplay(c, ds) && CreatedBy(c, ds) == CreatedIn(Some(Converged(info.versions, data, snap)))
  {
    var c, vs := CreatedIn(Some(info)), VersionInstrs(info.versions, snap, order, |order|);
    VersionsReplay(info.versions, snap, order, |order|);
    ProgressDone(info.versions, data, snap, order);
    hide Visits, VersionInstrs;
    if info.hash != Some(OfPackage(data)) {
      var d := Hashed(UpdatePackage(data), Some(OfPackage(data)));
      ReplayConcat(c, vs, [d]);
      ReplayOne(CreatedBy(c, vs), d);
    } else {
      assert vs + [] == vs;
    }
  }

  lemma NewChangeReplays(data: PackageData, snap: Versions, order: seq<Semver>)
    requires SnapshotOk(data, snap) && Visits(order, map[], snap)
    ensures var ds := ChangeInstrs(None, data, snap, order);
      AllReplay(None, ds) && CreatedBy(None, ds) == CreatedIn(Some(Converged(map[], data, snap)))
  {
    var create := Hashed(CreatePackage(WithoutLatest(data)), if data.Normal? then None else Some(OfPackage(data)));
    var vs := VersionInstrs(map[], snap, order, |order|);
    var update := if data.Normal? then [Hashed(UpdatePackage(data), Some(OfPackage(data)))] else [];
    var patch := Hashed(PatchPackageReferences, None);
    var none: map<Semver, VersionInfo> := map[];
    ReplayOne(None, create);
    assert none.Keys == {};
    VersionsReplay(none, snap, order, |order|);
    ProgressDone(none, data, snap, order);
    hide Visits, VersionInstrs, VersionInstr, Progress;
    ReplayConcat(None, [create], vs);
    ReplayConcat(None, [create] + vs, update);
    var c := CreatedBy(None, [create] + vs);
    if data.Normal? {
      ReplayOne(c, update[0]);
    } else {
      assert update == [];
    }
    ReplayConcat(None, [create] + vs + update, [patch]);
    ReplayOne(CreatedBy(c, update), patch);
  }

  /** The instructions of a change refer only to what exists, and create nothing twice. */
  lemma ChangeReplays(state: Option<PackageInfo>, data: PackageData, snap: Versions, order: seq<Semver>)
    requires SnapshotOk(data, snap) && Visits(order, KnownVersions(state), snap)
    ensures var c, ds := CreatedIn(state), ChangeInstrs(state, data, snap, order);
      AllReplay(c, ds) && CreatedBy(c, ds) == CreatedIn(Some(Converged(KnownVersions(state), data, snap)))
  {
    hide Visits, SnapshotOk;
    if state == None {
      NewChangeReplays(data, snap, order);
    } else {
      KnownChangeReplays(state.value, data, snap, order);
    }
  }

  // ---------- Snapshots ----------

  /** A parsed document: deleted, unpublished, without data, or normal with its `latest` tag, if it has one, and what
      that tag parses as. */
  datatype Doc =
    | DeletedDoc
    | UnpublishedDoc(created: Time, modified: Time, blob: Json, times: Times)
    | EmptyDoc
    | NormalDoc(latest: Option<LatestTag>, tags: Tags, created: Time, modified: Time, times: Times, versions: Versions)

  datatype LatestTag = LatestTag(text: string, parsed: Option<Semver>)

  const LATEST := "latest"

  /** `deserialize_latest_tag` followed by the end of `deserialize_packument_blob_normal`: a tag that is no version,
      or no version of this package, goes back to the other tags. */
  function Snapshot(doc: Doc): (PackageData, Versions) {
    match doc
    case DeletedDoc => (Deleted, map[])
    case EmptyDoc => (MissingData, map[])
    case UnpublishedDoc(created, modified, blob, times) => (Unpublished(created, modified, blob, times), map[])
    case NormalDoc(latest, tags, created, modified, times, versions) =>
      var others := times - versions.Keys;
      match latest
      case None => (Normal(None, created, modified, tags, others), versions)
      case Some(LatestTag(text, None)) => (Normal(None, created, modified, tags[LATEST := text], others), versions)
      case Some(LatestTag(_, Some(v))) =>
        if v in versions then (Normal(Some(v), created, modified, tags, others), versions)
        else (Normal(None, created, modified, tags[LATEST := v], others), versions)
  }

  predicate KeepsLatest(data: PackageData, tag: LatestTag) {
    data.Normal? && ((data.latest.Some? && data.latest == tag.parsed) || LATEST in data.otherTags)
  }

  /** The latest version of a snapshot is always one of its versions, and a `latest` tag is never lost. */
  lemma SnapshotIsOk(doc: Doc)
    ensures var (data, versions) := Snapshot(doc);
      && SnapshotOk(data, versions)
      && (doc.NormalDoc? && doc.latest.Some? ==> KeepsLatest(data, doc.latest.value))
  {
  }

  /** A snapshot has all the versions of the document and its times; the times of other versions and all tags but
      `latest` go with the package, and `latest` itself goes where it can be kept. */
  lemma SnapshotKeeps(doc: Doc)
    requires doc.NormalDoc?
    ensures var (data, versions) := Snapshot(doc);
      && versions == doc.versions && data.Normal? && data.created == doc.created && data.modified == doc.modified
      && (forall v :: v in data.times <==> v in doc.times && v !in doc.versions)
      && (forall v :: v in data.times ==> data.times[v] == doc.times[v])
      && (forall t :: t != LATEST ==> (t in data.otherTags <==> t in doc.tags))
      && (forall t :: t != LATEST && t in doc.tags ==> data.otherTags[t] == doc.tags[t])
      && LatestKept(data, doc)
  {
  }

  /** Where the `latest` tag goes: to the package if it is a version of the document, and back to the tags otherwise,
      as the text of the version if it parses as one. */
  predicate LatestKept(data: PackageData, doc: Doc)
    requires data.Normal? && doc.NormalDoc?
  {
    match doc.latest
    case None => data.latest == None && data.otherTags == doc.tags
    case Some(tag) =>
      var isVersion := tag.parsed.Some? && tag.parsed.value in doc.versions;
      && (isVersion ==> data.latest == tag.parsed && data.otherTags == doc.tags)
      && (!isVersion ==> data.latest == None && LATEST in data.otherTags)
      && (!isVersion ==> data.otherTags[LATEST] == if tag.parsed.Some? then tag.parsed.value else tag.text)
  }

  /** What the other documents say of the package; they have no versions. */
  lemma SnapshotOfOthers(doc: Doc)
    requires !doc.NormalDoc?
    ensures var (data, versions) := Snapshot(doc);
      && versions == map[] && (doc.DeletedDoc? <==> data.Deleted?) && (doc.EmptyDoc? <==> data.MissingData?)
      && (doc.UnpublishedDoc? <==> data.Unpublished?)
      && (doc.UnpublishedDoc? ==> data.created == doc.created && data.modified == doc.modified)
      && (doc.UnpublishedDoc? ==> data.blob == doc.blob && data.times == doc.times)
  {
  }
}
