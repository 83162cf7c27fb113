/** The whole pipeline, told by the history of snapshots: when the counters of the relational tables are right, and
    when the versions that are live in them are those of the last snapshots (diff_log_builder/src/lib.rs,
    relational_db_builder/src/lib.rs). */
module DiffLogTables {
  import opened Optional
  import opened RelationalModel
  import opened RelationalRuns
  import opened DiffLogModel
  import opened DiffLogRuns
  import opened DiffLogFates
  import opened DiffLogReplay
  import opened LogDemands

  // ---------- Fates and logs ----------

  /** The fate of a version agrees with what the log notes. */
  predicate FateFits(f: Fate, c: Creations, gone: Gone, key: (Name, Semver)) {
    && (f.gone <==> key in gone)
    && f.created == if key in c then Some(c[key]) else None
  }

  lemma {:induction false} FateIsNoted(log: seq<Entry>, m: nat, n: Name, v: Semver)
    requires m <= |log|
    ensures FateFits(FateBy(log, m, n, v), CreationsBy(log, m), GoneBy(log, m), (n, v))
  {
    if m > 0 {
      FateIsNoted(log, m - 1, n, v);
    }
  }

  /** The version was deleted while it was deleted, and has dependencies. */
  predicate Miscounted(f: Fate) {
    f.twice && f.created.Some? && AllListed(f.created.value) != []
  }

  predicate MiscountedBy(log: seq<Entry>, m: nat, n: Name, v: Semver)
    requires m <= |log|
  {
    Miscounted(FateBy(log, m, n, v))
  }

  /** The instruction deletes the version while it is deleted. */
  predicate Miscounts(f: Fate, instr: Instr, v: Semver) {
    instr == DeleteVersion(v) && f.gone && f.created.Some? && AllListed(f.created.value) != []
  }

  /** Nothing is said of a version before it is created. */
  predicate FateSound(f: Fate) {
    f.created == None ==> !f.gone && !f.twice
  }

  lemma FateNext(f: Fate, c: Created, instr: Instr, v: Semver)
    requires FateSound(f) && CanReplay(c, instr) && (c.Some? && v in c.value <==> f.created.Some?)
    ensures FateSound(FateStep(f, instr, v))
    ensures Miscounted(FateStep(f, instr, v)) <==> Miscounted(f) || Miscounts(f, instr, v)
  {
  }

  lemma {:induction false} FatesSound(log: seq<Entry>, m: nat, n: Name, v: Semver)
    requires m <= |log| && LogReplays(log[..m])
    ensures FateSound(FateBy(log, m, n, v))
  {
    hide CanReplay, FateSound, FateStep;
    if m > 0 {
      LastEntry(log, m);
      assert log[..m][..m - 1] == log[..m - 1];
      FatesSound(log, m - 1, n, v);
      KnownAreNoted(log, m - 1);
      FateIsNoted(log, m - 1, n, v);
      if log[m - 1].package == n {
        FateNext(FateBy(log, m - 1, n, v), At(KnownAfter(log[..m - 1]), n), log[m - 1].instr, v);
      }
    } else {
      assert FateSound(UNBORN) by {
        UnbornSound();
      }
    }
  }

  lemma UnbornSound()
    ensures FateSound(UNBORN) && !Miscounted(UNBORN)
  {
  }

  /** The last of the first `m` entries deletes the version while it is deleted. */
  predicate MiscountsAt(log: seq<Entry>, m: nat, n: Name, v: Semver)
    requires 0 < m <= |log|
  {
    && log[m - 1].package == n && log[m - 1].instr == DeleteVersion(v)
    && DeletesGone(CreationsBy(log, m - 1), GoneBy(log, m - 1), log[m - 1])
  }

  lemma MiscountedNext(log: seq<Entry>, m: nat, n: Name, v: Semver)
    requires 0 < m <= |log| && LogReplays(log[..m])
    ensures MiscountedBy(log, m, n, v) <==> MiscountedBy(log, m - 1, n, v) || MiscountsAt(log, m, n, v)
  {
    hide CanReplay, FateStep, FateSound, AllListed;
    LastEntry(log, m);
    assert log[..m][..m - 1] == log[..m - 1];
    FatesSound(log, m - 1, n, v);
    KnownAreNoted(log, m - 1);
    FateIsNoted(log, m - 1, n, v);
    if log[m - 1].package == n {
      FateNext(FateBy(log, m - 1, n, v), At(KnownAfter(log[..m - 1]), n), log[m - 1].instr, v);
    }
  }

  lemma DeletionNamed(log: seq<Entry>, m: nat)
    requires 0 < m <= |log|
    ensures DeletesGone(CreationsBy(log, m - 1), GoneBy(log, m - 1), log[m - 1])
      <==> exists n, v :: MiscountsAt(log, m, n, v)
  {
    var e := log[m - 1];
    if DeletesGone(CreationsBy(log, m - 1), GoneBy(log, m - 1), e) {
      assert MiscountsAt(log, m, e.package, e.instr.v);
    }
  }

  lemma {:induction false} MiscountedWhen(log: seq<Entry>, m: nat)
    requires m <= |log| && LogReplays(log[..m])
    ensures NeverDeletesGone(log, m) <==> forall n, v :: !MiscountedBy(log, m, n, v)
  {
    hide MiscountedBy, DeletesGone, MiscountsAt, CanReplay, FateStep;
    if m > 0 {
      LastEntry(log, m);
      assert log[..m][..m - 1] == log[..m - 1];
      MiscountedWhen(log, m - 1);
      DeletionNamed(log, m);
      if !NeverDeletesGone(log, m - 1) {
        var n, v :| MiscountedBy(log, m - 1, n, v);
        MiscountedNext(log, m, n, v);
      } else if n, v :| MiscountsAt(log, m, n, v) {
        MiscountedNext(log, m, n, v);
      } else {
        forall n, v ensures !MiscountedBy(log, m, n, v) {
          MiscountedNext(log, m, n, v);
        }
      }
    } else {
      NoneMiscounted(log);
    }
  }

  lemma NoneMiscounted(log: seq<Entry>)
    ensures forall n, v :: !MiscountedBy(log, 0, n, v)
  {
  }

  // ---------- Counters ----------

  /** The tables that the log of a history leads to. */
  ghost function TablesAfter(es: seq<Event>): (r: Option<Db>)
    ensures r.Some? ==> DbOk(r.value)
  {
    ReplayAll(LogAfter(es), |LogAfter(es)|)
  }

  /** The version is first seen with dependencies. */
  ghost predicate HasDeps(es: seq<Event>, n: Name, v: Semver) {
    FirstSeen(es, n, v).Some? && AllListed(FirstSeen(es, n, v).value) != []
  }

  /** The version was removed, the removal was forgotten, and it was removed again. */
  ghost predicate RemovedTwice(es: seq<Event>, n: Name, v: Semver) {
    exists d: nat, f: nat, k: nat :: RemovedAgain(es, d, f, k, n, v)
  }

  /** For every history of the builder whose log is replayed: all dependency counts are right if and only if no
      version that was first seen with dependencies is removed, forgotten, and removed again. */
  lemma HistoryConserves(es: seq<Event>)
    requires Ordered(es) && TablesAfter(es).Some? && Told(TextsBy(LogAfter(es), |LogAfter(es)|))
    ensures Conserved(TablesAfter(es).value) <==> forall n, v :: RemovedTwice(es, n, v) ==> !HasDeps(es, n, v)
  {
    hide Conserved, Told, RemovedTwice, HasDeps, Ordered, MiscountedBy, LogReplays, DbOk;
    HistoryReplays(es);
    LogCounts(LogAfter(es));
    var log := LogAfter(es);
    forall n, v ensures MiscountedBy(log, |log|, n, v) <==> HasDeps(es, n, v) && RemovedTwice(es, n, v) {
      MiscountedIs(es, n, v);
    }
  }

  lemma LogCounts(log: seq<Entry>)
    requires LogReplays(log) && ReplayAll(log, |log|).Some? && Told(TextsBy(log, |log|))
    ensures Conserved(ReplayAll(log, |log|).value) <==> forall n, v :: !MiscountedBy(log, |log|, n, v)
  {
    hide Conserved, Told, DbOk, MiscountedBy;
    assert log[..|log|] == log;
    CountsRightWhen(log);
    MiscountedWhen(log, |log|);
  }

  lemma MiscountedIs(es: seq<Event>, n: Name, v: Semver)
    requires Ordered(es)
    ensures MiscountedBy(LogAfter(es), |LogAfter(es)|, n, v) <==> HasDeps(es, n, v) && RemovedTwice(es, n, v)
  {
    hide Forgotten, OnlyKept, Lacks, AllListed;
    LogTellsFates(es, n, v);
    CreatedAsSeen(es, n, v);
    assert es[..|es|] == es;
    TwiceWhen(es, |es|, n, v);
  }

  // ---------- Live versions ----------

  /** The tables have a live row of the version. */
  predicate LiveIn(db: Db, n: Name, v: Semver) {
    && n in db.names && (db.names[n], v) in db.versionIds && db.versionIds[(db.names[n], v)] < |db.versions|
    && db.versions[db.versionIds[(db.names[n], v)]].state == IsLive
  }

  /** Replaying a log that refers only to what exists makes exactly the versions live that the log says are. */
  lemma ReplayLive(log: seq<Entry>, n: Name, v: Semver)
    requires LogReplays(log) && ReplayAll(log, |log|).Some?
    ensures LiveIn(ReplayAll(log, |log|).value, n, v) <==> Live(FateBy(log, |log|, n, v))
  {
    hide DbOk;
    var db := ReplayAll(log, |log|).value;
    assert log[..|log|] == log;
    BuilderLogReplays(log, |log|);
    assert InTables(db, n) == At(KnownAfter(log), n);
    KnownAreNoted(log, |log|);
    FateIsNoted(log, |log|, n, v);
    StatesFollow(log, |log|);
    if (n, v) in CreationsBy(log, |log|) {
      assert HasState(db, n, v, (n, v) in GoneBy(log, |log|));
    }
  }

  lemma {:induction false} LogGrows(es: seq<Event>, j: nat)
    requires j <= |es|
    ensures LogAfter(es[..j]) <= LogAfter(es)
  {
    if j < |es| {
      LogGrows(es[..|es| - 1], j);
      assert es[..|es| - 1][..j] == es[..j];
    } else {
      assert es[..j] == es;
    }
  }

  lemma {:induction false} OrderedBefore(es: seq<Event>, j: nat)
    requires j <= |es| && Ordered(es)
    ensures Ordered(es[..j])
  {
    if j < |es| {
      OrderedBefore(es[..|es| - 1], j);
      assert es[..|es| - 1][..j] == es[..j];
    } else {
      assert es[..j] == es;
    }
  }

  lemma {:induction false} ReplayPrefix(log: seq<Entry>, more: seq<Entry>, m: nat)
    requires m <= |log| && log <= more
    ensures ReplayAll(log, m) == ReplayAll(more, m)
  {
    hide Replay, DbOk;
    if m > 0 {
      ReplayPrefix(log, more, m - 1);
    }
  }

  lemma {:induction false} ReplayBefore(log: seq<Entry>, i: nat, m: nat)
    requires i <= m <= |log| && ReplayAll(log, m).Some?
    ensures ReplayAll(log, i).Some?
  {
    hide Replay, DbOk;
    if i < m {
      ReplayBefore(log, i, m - 1);
    }
  }

  lemma TablesBefore(es: seq<Event>, j: nat)
    requires j <= |es| && TablesAfter(es).Some?
    ensures TablesAfter(es[..j]).Some?
  {
    LogGrows(es, j);
    ReplayPrefix(LogAfter(es[..j]), LogAfter(es), |LogAfter(es[..j])|);
    ReplayBefore(LogAfter(es), |LogAfter(es[..j])|, |LogAfter(es)|);
  }

  /** After a history, a version is live in the tables if and only if the history says that it is live. */
  lemma HistoryLive(es: seq<Event>, n: Name, v: Semver)
    requires Ordered(es) && TablesAfter(es).Some?
    ensures LiveIn(TablesAfter(es).value, n, v) <==> Live(FateIn(es, n, v))
  {
    HistoryReplays(es);
    ReplayLive(LogAfter(es), n, v);
    LogTellsFates(es, n, v);
  }

  /** The tables have the version live if and only if the last snapshot has it. */
  ghost predicate TablesAgree(es: seq<Event>, n: Name, v: Semver) {
    TablesAfter(es).Some? && (LiveIn(TablesAfter(es).value, n, v) <==> InLast(es, n, v))
  }

  /** For every history whose log is replayed: at each point of it a version is live in the tables just when the last
      snapshot has it, if and only if the builder misses no change of it. */
  lemma TablesFollowSnapshots(es: seq<Event>, n: Name, v: Semver)
    requires Ordered(es) && TablesAfter(es).Some?
    ensures (forall j :: 0 <= j <= |es| ==> TablesAgree(es[..j], n, v))
      <==> (forall j :: 0 <= j < |es| ==> !Missed(es, j, n, v))
  {
    hide Ordered, Missed, LiveIn, InLast, TablesAfter;
    AlwaysAgreesWhen(es, |es|, n, v);
    forall j | 0 <= j <= |es| ensures TablesAgree(es[..j], n, v) <==> Agrees(es[..j], n, v) {
      OrderedBefore(es, j);
      TablesBefore(es, j);
      HistoryLive(es[..j], n, v);
    }
  }

  // ---------- Documents that break the counters ----------

  /** Creates the version with `d` only, and updates nothing but plain package data. */
  predicate IsPlain(instr: Instr, d: VersionData) {
    match instr
    case CreatePackage(_) => true
    case UpdatePackage(data) => data.Normal?
    case PatchPackageReferences => true
    case CreateVersion(_, data) => data == d
    case UpdateVersion(_, _) => false
    case DeleteVersion(_) => true
  }

  ghost predicate PlainLog(log: seq<Entry>, d: VersionData) {
    forall i :: 0 <= i < |log| ==> IsPlain(log[i].instr, d)
  }

  lemma {:induction false} PlainLogFits(log: seq<Entry>, m: nat, d: VersionData)
    requires m <= |log| && PlainLog(log, d) && AllUnique(d)
    ensures AllFit(log, m) && TextsBy(log, m) <= (set x | x in AllListed(d))
  {
    if m > 0 {
      PlainLogFits(log, m - 1, d);
      assert IsPlain(log[m - 1].instr, d);
    }
  }

  ghost predicate AllPlain(ds: seq<Hashed>, d: VersionData) {
    forall i :: 0 <= i < |ds| ==> IsPlain(ds[i].instr, d)
  }

  lemma PlainConcat(a: seq<Hashed>, b: seq<Hashed>, d: VersionData)
    requires AllPlain(a, d) && AllPlain(b, d)
    ensures AllPlain(a + b, d)
  {
  }

  lemma PlainVisit(known: map<Semver, VersionInfo>, versions: Versions, v: Semver, d: VersionData)
    requires v in versions ==> versions[v] == d
    requires v in known && v in versions ==> known[v].hash == OfVersion(d)
    ensures AllPlain(VersionInstrs(known, versions, [v], 1), d)
  {
    assert VersionInstrs(known, versions, [v], 0) == [];
  }

  lemma PlainOthers(data: PackageData, hash: Option<Hash>, d: VersionData)
    requires data.Normal?
    ensures AllPlain([Hashed(CreatePackage(data), hash)], d) && AllPlain([Hashed(UpdatePackage(data), hash)], d)
    ensures AllPlain([Hashed(PatchPackageReferences, hash)], d) && AllPlain([], d)
  {
  }

  lemma PlainInstrs(state: Option<PackageInfo>, versions: Versions, v: Semver, d: VersionData)
    requires v in versions ==> versions[v] == d
    requires var known := KnownVersions(state); v in known && v in versions ==> known[v].hash == OfVersion(d)
    ensures AllPlain(ChangeInstrs(state, PLAIN_DATA, versions, [v]), d)
  {
    hide AllPlain, VersionInstrs;
    var vs := VersionInstrs(KnownVersions(state), versions, [v], 1);
    PlainVisit(KnownVersions(state), versions, v, d);
    var hash := Some(OfPackage(PLAIN_DATA));
    PlainOthers(PLAIN_DATA, hash, d);
    PlainOthers(PLAIN_DATA, None, d);
    var create, update, patch := [Hashed(CreatePackage(PLAIN_DATA), None)], [Hashed(UpdatePackage(PLAIN_DATA), hash)],
                                 [Hashed(PatchPackageReferences, None)];
    PlainConcat(vs, update, d);
    PlainConcat(vs, [], d);
    PlainConcat(create, vs, d);
    PlainConcat(create + vs, update, d);
    PlainConcat(create + vs + update, patch, d);
  }

  lemma PlainEntries(es: seq<Event>, n: Name, v: Semver, seqId: int, versions: Versions, d: VersionData, at: nat)
    requires !Ignored(n) && (v in versions ==> versions[v] == d)
    requires v in Remembered(es, n) && v in versions ==> Remembered(es, n)[v].hash == OfVersion(d)
    ensures PlainLog(EventEntries(es, PlainChange(seqId, n, v, versions), at), d)
  {
    hide ChangeInstrs, Snapshot, Plain, ViewAfter, IsPlain;
    PlainSnapshot(versions);
    PlainInstrs(ViewAfter(es, n).local, versions, v, d);
  }

  lemma GrowsPlain(es: seq<Event>, n: Name, v: Semver, seqId: int, versions: Versions, d: VersionData)
    requires !Ignored(n) && Ordered(es) && PlainLog(LogAfter(es), d) && (v in versions ==> versions[v] == d)
    requires Remembered(es, n).Keys <= {v} && versions.Keys <= {v} && (v in Remembered(es, n) || v in versions)
    requires v in Remembered(es, n) && v in versions ==> Remembered(es, n)[v].hash == OfVersion(d)
    ensures PlainLog(LogAfter(es + [PlainChange(seqId, n, v, versions)]), d)
  {
    var e := PlainChange(seqId, n, v, versions);
    PlainEntries(es, n, v, seqId, versions, d, |LogAfter(es)|);
    assert (es + [e])[..|es|] == es;
  }

  lemma EndsPlain(es: seq<Event>, d: VersionData)
    requires PlainLog(LogAfter(es), d)
    ensures PlainLog(LogAfter(es + [BatchEnds]), d)
  {
    assert (es + [BatchEnds])[..|es|] == es;
  }

  /** The three documents of `DeletedTwice`, for a version with dependencies: the log is replayed, and leaves some
      count of the tables wrong. */
  lemma DeletedTwiceMiscounts(n: Name, v: Semver, d: VersionData)
    requires !Ignored(n) && AllUnique(d) && AllListed(d) != [] && Told(set x | x in AllListed(d))
    ensures var es := TwiceHistory(n, v, d);
      Ordered(es) && TablesAfter(es).Some? && !Conserved(TablesAfter(es).value)
  {
    hide AllUnique, AllListed, Conserved, DbOk;
    var es := TwiceHistory(n, v, d);
    var log := LogAfter(es);
    DeletedTwice(n, v, d);
    TwiceIsPlain(n, v, d);
    PlainLogFits(log, |log|, d);
    HistoryReplays(es);
    BuilderLogFits(log);
    LogTellsFates(es, n, v);
    LogCounts(log);
    assert MiscountedBy(log, |log|, n, v);
  }

  lemma TwiceIsPlain(n: Name, v: Semver, d: VersionData)
    requires !Ignored(n)
    ensures PlainLog(LogAfter(TwiceHistory(n, v, d)), d)
  {
    hide PlainLog, Ordered;
    var es := TwiceHistory(n, v, d);
    TwiceStates(n, v, d);
    assert PlainLog(LogAfter([]), d) by {
      EmptyPlain(d);
    }
    assert es[..0] == [];
    GrowsPlain(es[..0], n, v, 1, map[v := d], d);
    assert es[..1] == es[..0] + [es[0]];
    EndsPlain(es[..1], d);
    assert es[..2] == es[..1] + [es[1]];
    GrowsPlain(es[..2], n, v, 2, map[], d);
    assert es[..3] == es[..2] + [es[2]];
    EndsPlain(es[..3], d);
    assert es[..4] == es[..3] + [es[3]];
    GrowsPlain(es[..4], n, v, 3, map[], d);
    assert es[..5] == es[..4] + [es[4]];
    EndsPlain(es[..5], d);
    assert es == es[..5] + [es[5]];
  }

  lemma EmptyPlain(d: VersionData)
    ensures PlainLog(LogAfter([]), d)
  {
  }

  // ---------- References ----------

  lemma {:induction false} PatchedByIs(log: seq<Entry>, m: nat, n: Name)
    requires m <= |log|
    ensures n in PatchedBy(log, m) <==> PatchesRefs(log, m, n)
  {
    if m > 0 {
      PatchedByIs(log, m - 1, n);
    }
  }

  /** For every history whose log is replayed: each dependency refers to the package of its name if the tables have
      it, and to nothing otherwise. */
  lemma HistoryLinks(es: seq<Event>, i: nat)
    requires Ordered(es) && TablesAfter(es).Some? && i < |TablesAfter(es).value.deps.rows|
    ensures var db := TablesAfter(es).value;
      var d := db.deps.rows[i]; d.dst == NameId(db.names, d.name)
  {
    hide DbOk, Ordered, LogReplays;
    var db, log := TablesAfter(es).value, LogAfter(es);
    var d := db.deps.rows[i];
    HistoryReplays(es);
    LogLinks(log, |log|);
    assert RefRight(db.names, PatchedBy(log, |log|), d);
    assert log[..|log|] == log;
    BuilderLogReplays(log, |log|);
    assert InTables(db, d.name) == At(KnownAfter(log), d.name);
    RemembersPackage(es, d.name);
    HistoryPatches(es, d.name);
    PatchedByIs(log, |log|, d.name);
  }
}
