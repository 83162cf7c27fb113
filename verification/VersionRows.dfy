/** What a version row shows, told by the log: what the version was created with, the last data that were logged of
    it, and one point for each change of its state (relational_db_builder/src/lib.rs, postgres_db/src/versions.rs). */
module VersionRows {
  import opened Optional
  import opened RelationalModel
  import opened RelationalRuns
  import opened DiffLogReplay
  import opened DiffLogFates
  import opened DiffLogModel
  import opened DiffLogRuns
  import opened DiffLogTables
  import opened LogDemands

  /** The point that an entry about the version adds to its history: a creation is dated by the data; a deletion, even
      of a deleted version, and an update of a deleted one have no date. */
  function PointsOf(f: Fate, e: Entry, v: Semver): seq<VersionPoint> {
    match e.instr
    case CreateVersion(w, data) => if w == v then [VersionPoint(IsLive, e.seqId, e.entryId, Some(data.time))] else []
    case UpdateVersion(w, _) => if w == v && f.gone then [VersionPoint(IsLive, e.seqId, e.entryId, None)] else []
    case DeleteVersion(w) => if w == v then [VersionPoint(IsGone, e.seqId, e.entryId, None)] else []
    case _ => []
  }

  function PointsBy(log: seq<Entry>, m: nat, n: Name, v: Semver): seq<VersionPoint>
    requires m <= |log|
  {
    if m == 0 then [] else
      PointsBy(log, m - 1, n, v)
      + if log[m - 1].package == n then PointsOf(FateBy(log, m - 1, n, v), log[m - 1], v) else []
  }

  predicate HasIndex(db: Db, n: Name, v: Semver) {
    n in db.names && (db.names[n], v) in db.versionIds
  }

  predicate HasRow(db: Db, n: Name, v: Semver, row: Version) {
    HasIndex(db, n, v) && db.versionIds[(db.names[n], v)] < |db.versions|
    && db.versions[db.versionIds[(db.names[n], v)]] == row
  }

  /** The row is as the log tells. */
  predicate RowTells(row: Version, f: Fate, points: seq<VersionPoint>, v: Semver) {
    && f.created.Some? && f.logged.Some?
    && row.semver == v && (row.state == IsGone <==> f.gone)
    && row.tarball == f.created.value.tarball && row.repo == f.created.value.repo && row.created == f.created.value.time
    && row.extra == f.logged.value.extra
    && row.history == points
  }

  /** The version has a row if and only if it was created, and the row is as the log tells. */
  ghost predicate RowTold(db: Db, f: Fate, points: seq<VersionPoint>, n: Name, v: Semver) {
    if f.created == None then !HasIndex(db, n, v) && !f.gone && points == []
    else exists row :: HasRow(db, n, v, row) && row.package == db.names[n] && RowTells(row, f, points, v)
  }

  /** An entry leaves the rows of the versions that it does not name. */
  lemma OtherRowKept(db: Db, e: Entry, n: Name, v: Semver)
    requires DbOk(db) && Replay(db, e).Some? && !IsAbout(e, n, v)
    ensures HasIndex(Replay(db, e).value, n, v) <==> HasIndex(db, n, v)
    ensures forall row :: HasRow(db, n, v, row) ==>
      HasRow(Replay(db, e).value, n, v, row) && Replay(db, e).value.names[n] == db.names[n]
  {
    hide DepTableOk, Extends, UpsertAll, Recount, NewVersionRow, SameVersion, Patched, VersionOk;
    if HasIndex(db, n, v) {
      assert VersionAt(db, db.versionIds[(db.names[n], v)], db.names[n], v);
      if e.instr.UpdateVersion? || e.instr.DeleteVersion? {
        assert VersionAt(db, FindVersion(db, e, e.instr.v).value, db.names[e.package], e.instr.v);
      }
    }
    if HasIndex(Replay(db, e).value, n, v) && !HasIndex(db, n, v) {
      NoNewIndex(db, e, n, v);
    }
  }

  lemma NoNewIndex(db: Db, e: Entry, n: Name, v: Semver)
    requires DbOk(db) && Replay(db, e).Some? && !IsAbout(e, n, v) && !HasIndex(db, n, v)
    ensures !HasIndex(Replay(db, e).value, n, v)
  {
    hide DepTableOk, Extends, UpsertAll, Recount, NewVersionRow, SameVersion, Patched;
    IndexInRange(db);
  }

  lemma IndexInRange(db: Db)
    requires DbOk(db)
    ensures forall key :: key in db.versionIds ==> key.0 < |db.packages|
  {
    forall key | key in db.versionIds ensures key.0 < |db.packages| {
      assert VersionAt(db, db.versionIds[key], key.0, key.1);
      assert VersionOk(db, db.versions[db.versionIds[key]]);
    }
  }

  /** What an entry does to the row of the version that it names. */
  lemma OwnRowNext(db: Db, e: Entry, v: Semver)
    requires DbOk(db) && Replay(db, e).Some? && IsAbout(e, e.package, v)
    ensures var next, n := Replay(db, e).value, e.package;
      && (e.instr.CreateVersion? ==> !HasIndex(db, n, v) && HasNewRow(next, n, v, e))
      && (!e.instr.CreateVersion? ==> forall row :: HasRow(db, n, v, row) ==>
            next.names[n] == db.names[n] && HasRow(next, n, v, RowAfter(row, e)))
  {
    hide DepTableOk, Extends, UpsertAll, Recount, SameVersion, Patched, VersionOk, OfKind;
  }

  predicate HasNewRow(db: Db, n: Name, v: Semver, e: Entry)
    requires e.instr.CreateVersion?
  {
    && HasIndex(db, n, v) && db.versionIds[(db.names[n], v)] < |db.versions|
    && NewRow(db.versions[db.versionIds[(db.names[n], v)]], db.names[n], v, e)
  }

  predicate NewRow(row: Version, package: Id, v: Semver, e: Entry)
    requires e.instr.CreateVersion?
  {
    var data := e.instr.vdata;
    && row.package == package && row.semver == v && row.state == IsLive
    && row.history == [VersionPoint(IsLive, e.seqId, e.entryId, Some(data.time))]
    && row.tarball == data.tarball && row.repo == data.repo && row.created == data.time && row.extra == data.extra
  }

  function RowAfter(row: Version, e: Entry): Version
    requires e.instr.UpdateVersion? || e.instr.DeleteVersion?
  {
    if e.instr.DeleteVersion? then
      row.(state := IsGone, history := row.history + [VersionPoint(IsGone, e.seqId, e.entryId, None)])
    else if row.state == IsLive then row.(extra := e.instr.vdata.extra)
    else row.(state := IsLive, extra := e.instr.vdata.extra,
              history := row.history + [VersionPoint(IsLive, e.seqId, e.entryId, None)])
  }

  lemma RowToldNext(db: Db, e: Entry, f: Fate, points: seq<VersionPoint>, n: Name, v: Semver)
    requires DbOk(db) && Replay(db, e).Some? && RowTold(db, f, points, n, v)
    ensures RowTold(Replay(db, e).value, if e.package == n then FateStep(f, e.instr, v) else f,
                    points + if e.package == n then PointsOf(f, e, v) else [], n, v)
  {
    hide DbOk, Replay;
    var next := Replay(db, e).value;
    var f' := if e.package == n then FateStep(f, e.instr, v) else f;
    var points' := points + if e.package == n then PointsOf(f, e, v) else [];
    if !IsAbout(e, n, v) {
      OtherRowKept(db, e, n, v);
      assert f' == f && points' == points;
    } else {
      OwnRowNext(db, e, v);
      if e.instr.CreateVersion? {
        var row := next.versions[next.versionIds[(next.names[n], v)]];
        assert HasRow(next, n, v, row);
        NewlyTold(db, f, points, n, v);
      } else {
        NamedExists(db, e, v);
        var row :| HasRow(db, n, v, row) && row.package == db.names[n] && RowTells(row, f, points, v);
        assert HasRow(next, n, v, RowAfter(row, e));
        assert RowTells(RowAfter(row, e), f', points', v);
      }
    }
  }

  lemma NewlyTold(db: Db, f: Fate, points: seq<VersionPoint>, n: Name, v: Semver)
    requires RowTold(db, f, points, n, v) && !HasIndex(db, n, v)
    ensures f.created == None && points == []
  {
  }

  lemma NamedExists(db: Db, e: Entry, v: Semver)
    requires DbOk(db) && Replay(db, e).Some? && IsAbout(e, e.package, v) && !e.instr.CreateVersion?
    ensures HasIndex(db, e.package, v)
  {
  }

  /** For every log: each version that the log creates has a row as the log tells, and no other has a row. */
  lemma {:induction false} RowsTold(log: seq<Entry>, m: nat, n: Name, v: Semver)
    requires m <= |log| && ReplayAll(log, m).Some?
    ensures RowTold(ReplayAll(log, m).value, FateBy(log, m, n, v), PointsBy(log, m, n, v), n, v)
  {
    hide DbOk, Replay, RowTold, FateStep, PointsOf;
    if m > 0 {
      RowsTold(log, m - 1, n, v);
      var f, points := FateBy(log, m - 1, n, v), PointsBy(log, m - 1, n, v);
      RowToldNext(ReplayAll(log, m - 1).value, log[m - 1], f, points, n, v);
    } else {
      NoRows(n, v);
    }
  }

  lemma NoRows(n: Name, v: Semver)
    ensures RowTold(EMPTY, UNBORN, [], n, v)
  {
  }

  /** For every history of the builder whose log is replayed: a version row has the metadata of the last logged data,
      which are those of the last snapshot with the version, if no change of it was taken for none. */
  lemma HistoryMetadata(es: seq<Event>, n: Name, v: Semver)
    requires Ordered(es) && TablesAfter(es).Some? && LastSeen(es, n, v).Some?
    requires forall j :: 0 <= j < |es| ==> !MissedData(es, j, n, v)
    ensures exists row :: HasRow(TablesAfter(es).value, n, v, row) && row.extra == LastSeen(es, n, v).value.extra
  {
    hide DbOk, MissedData;
    var log := LogAfter(es);
    RowsTold(log, |log|, n, v);
    LogTellsFates(es, n, v);
    CreatedAsSeen(es, n, v);
    AlwaysLogsLastWhen(es, |es|, n, v);
    assert es[..|es|] == es;
    assert LogsLast(es[..|es|], n, v);
    SeenIsSeen(es, n, v);
  }

  lemma {:induction false} SeenIsSeen(es: seq<Event>, n: Name, v: Semver)
    ensures LastSeen(es, n, v).Some? <==> FirstSeen(es, n, v).Some?
  {
    if es != [] {
      SeenIsSeen(es[..|es| - 1], n, v);
    }
  }
}
