/** What a package row shows, told by the log: the entries that create and update the package
    (relational_db_builder/src/lib.rs, postgres_db/src/packages.rs). */
module PackageRows {
  import opened Optional
  import opened RelationalModel
  import opened RelationalRuns
  import opened DiffLogRuns
  import opened DiffLogFates
  import opened DiffLogTables
  import opened LogDemands

  predicate IsPackageEntry(e: Entry, n: Name) {
    e.package == n && (e.instr.CreatePackage? || e.instr.UpdatePackage?)
  }

  /** Of the first `m` entries, those that create or update the package. */
  function PackageEntries(log: seq<Entry>, m: nat, n: Name): (r: seq<Entry>)
    requires m <= |log|
    ensures forall i :: 0 <= i < |r| ==> IsPackageEntry(r[i], n)
  {
    if m == 0 then []
    else PackageEntries(log, m - 1, n) + if IsPackageEntry(log[m - 1], n) then [log[m - 1]] else []
  }

  // ---------- The columns ----------

  /** The state that the data stand for. */
  predicate IsState(state: PackageState, data: PackageData) {
    && (state == IsNormal <==> data.Normal?)
    && (state == IsUnpublished <==> data.Unpublished?)
    && (state == IsDeleted <==> data.MissingData? || data.Deleted?)
  }

  /** Data with times, which set all the columns but the tags and the latest version. */
  predicate Dated(e: Entry) {
    (e.instr.CreatePackage? || e.instr.UpdatePackage?) && (e.instr.data.Normal? || e.instr.data.Unpublished?)
  }

  predicate Full(e: Entry) {
    (e.instr.CreatePackage? || e.instr.UpdatePackage?) && e.instr.data.Normal?
  }

  /** The point that an entry adds to the history: it is dated by the creation when it creates the package. */
  predicate IsPoint(p: PackagePoint, e: Entry)
    requires e.instr.CreatePackage? || e.instr.UpdatePackage?
  {
    && IsState(p.state, e.instr.data) && p.seqId == e.seqId && p.entryId == e.entryId
    && (Dated(e) && e.instr.CreatePackage? ==> p.time == Some(e.instr.data.created))
    && (Dated(e) && e.instr.UpdatePackage? ==> p.time == Some(e.instr.data.modified))
    && (!Dated(e) ==> p.time == None)
  }

  /** The columns that dated data set. */
  predicate ShowsDated(row: Package, e: Entry)
    requires Dated(e)
  {
    && row.created == Some(e.instr.data.created) && row.modified == Some(e.instr.data.modified)
    && row.unpublished == (if e.instr.data.Unpublished? then Some(e.instr.data.blob) else None)
    && row.otherTimes == Some(if e.instr.data.Normal? || e.instr.CreatePackage? then Wrapped(e.instr.data.times)
                              else EmptyObject)
  }

  predicate ShowsNoDate(row: Package) {
    row.created == None && row.modified == None && row.unpublished == None && row.otherTimes == None
  }

  /** The tags, and the row of the version that is tagged as the latest. */
  predicate ShowsFull(db: Db, row: Package, e: Entry)
    requires Full(e)
  {
    && row.otherTags == Some(e.instr.data.otherTags)
    && match e.instr.data.latest
       case None => row.latest == None
       case Some(v) =>
         e.package in db.names && (db.names[e.package], v) in db.versionIds
         && row.latest == Some(db.versionIds[(db.names[e.package], v)])
  }

  predicate LastDated(es: seq<Entry>, i: nat) {
    i < |es| && Dated(es[i]) && forall j :: i < j < |es| ==> !Dated(es[j])
  }

  predicate LastFull(es: seq<Entry>, i: nat) {
    i < |es| && Full(es[i]) && forall j :: i < j < |es| ==> !Full(es[j])
  }

  predicate PackageOnly(es: seq<Entry>) {
    forall i :: 0 <= i < |es| ==> es[i].instr.CreatePackage? || es[i].instr.UpdatePackage?
  }

  /** The row has the state of the last entry, and one point for each entry. */
  predicate HistoryShows(row: Package, es: seq<Entry>)
    requires PackageOnly(es)
  {
    && es != [] && IsState(row.state, es[|es| - 1].instr.data)
    && |row.history| == |es| && forall i :: 0 <= i < |es| ==> IsPoint(row.history[i], es[i])
  }

  ghost predicate DatedShows(row: Package, es: seq<Entry>) {
    && (forall i: nat :: LastDated(es, i) ==> ShowsDated(row, es[i]))
    && ((forall i :: 0 <= i < |es| ==> !Dated(es[i])) ==> ShowsNoDate(row))
  }

  ghost predicate FullShows(db: Db, row: Package, es: seq<Entry>) {
    && (forall i: nat :: LastFull(es, i) ==> ShowsFull(db, row, es[i]))
    && ((forall i :: 0 <= i < |es| ==> !Full(es[i])) ==> row.otherTags == None && row.latest == None)
  }

  /** State and history are told by all entries, each other column by the last entry that sets it. */
  ghost predicate RowShowsEntries(db: Db, row: Package, es: seq<Entry>)
    requires PackageOnly(es)
  {
    HistoryShows(row, es) && DatedShows(row, es) && FullShows(db, row, es)
  }

  lemma LastDatedGrows(es: seq<Entry>, e: Entry)
    ensures forall i: nat :: LastDated(es + [e], i) <==> if Dated(e) then i == |es| else LastDated(es, i)
    ensures (forall i :: 0 <= i < |es + [e]| ==> !Dated((es + [e])[i]))
      <==> !Dated(e) && forall i :: 0 <= i < |es| ==> !Dated(es[i])
  {
    var more := es + [e];
    assert more[|es|] == e && forall i :: 0 <= i < |es| ==> more[i] == es[i];
  }

  lemma LastFullGrows(es: seq<Entry>, e: Entry)
    ensures forall i: nat :: LastFull(es + [e], i) <==> if Full(e) then i == |es| else LastFull(es, i)
    ensures (forall i :: 0 <= i < |es + [e]| ==> !Full((es + [e])[i]))
      <==> !Full(e) && forall i :: 0 <= i < |es| ==> !Full(es[i])
  {
    var more := es + [e];
    assert more[|es|] == e && forall i :: 0 <= i < |es| ==> more[i] == es[i];
  }

  // ---------- Every entry keeps them ----------

  lemma CreatedShows(db: Db, e: Entry)
    requires e.instr.CreatePackage? && NewPackageRow(e.package, e.instr.data, e.seqId, e.entryId).Some?
    ensures RowShowsEntries(db, NewPackageRow(e.package, e.instr.data, e.seqId, e.entryId).value, [e])
  {
    LastDatedGrows([], e);
    LastFullGrows([], e);
    assert [] + [e] == [e];
  }

  /** What an update computes. */
  ghost predicate Updates(db: Db, before: Package, e: Entry, row: Package) {
    && e.instr.UpdatePackage? && e.package in db.names
    && var latest := LatestId(db, db.names[e.package], e.instr.data);
    latest.Some? && UpdatedPackageRow(before, e.instr.data, latest.value, e.seqId, e.entryId) == Some(row)
  }

  lemma UpdatedHistory(db: Db, before: Package, es: seq<Entry>, e: Entry, row: Package)
    requires PackageOnly(es) && HistoryShows(before, es) && Updates(db, before, e, row)
    ensures PackageOnly(es + [e]) && HistoryShows(row, es + [e])
  {
    var more := es + [e];
    assert more[|es|] == e && forall i :: 0 <= i < |es| ==> more[i] == es[i];
    assert forall i :: 0 <= i < |es| ==> row.history[i] == before.history[i];
  }

  lemma UpdatedDated(db: Db, before: Package, es: seq<Entry>, e: Entry, row: Package)
    requires DatedShows(before, es) && Updates(db, before, e, row)
    ensures DatedShows(row, es + [e])
  {
    hide LastDated;
    LastDatedGrows(es, e);
    var more := es + [e];
    forall i: nat | LastDated(more, i) ensures i < |more| && Dated(more[i]) && ShowsDated(row, more[i]) {
      LastIndex(es + [e], i);
      if !Dated(e) {
        LastIndex(es, i);
        assert (es + [e])[i] == es[i];
      }
    }
  }

  lemma LastIndex(es: seq<Entry>, i: nat)
    ensures LastDated(es, i) ==> i < |es| && Dated(es[i])
    ensures LastFull(es, i) ==> i < |es| && Full(es[i])
  {
  }

  lemma UpdatedFull(db: Db, before: Package, es: seq<Entry>, e: Entry, row: Package)
    requires FullShows(db, before, es) && Updates(db, before, e, row)
    ensures FullShows(db, row, es + [e])
  {
    hide LastFull;
    LastFullGrows(es, e);
    var more := es + [e];
    forall i: nat | LastFull(more, i) ensures i < |more| && Full(more[i]) && ShowsFull(db, row, more[i]) {
      LastIndex(es + [e], i);
      if !Full(e) {
        LastIndex(es, i);
        assert (es + [e])[i] == es[i];
      }
    }
  }

  lemma StillShowsEntries(db: Db, next: Db, row: Package, es: seq<Entry>)
    requires PackageOnly(es) && RowShowsEntries(db, row, es) && KeepsVersions(db, next)
    ensures RowShowsEntries(next, row, es)
  {
    hide IsPoint, IsState, LastDated, ShowsDated;
  }

  /** The package has a row if and only if the log creates it, and the row shows its entries. */
  ghost predicate RowFollows(db: Db, log: seq<Entry>, m: nat, n: Name)
    requires m <= |log| && DbOk(db)
  {
    if n in db.names then RowShowsEntries(db, db.packages[db.names[n]], PackageEntries(log, m, n))
    else PackageEntries(log, m, n) == []
  }

  lemma UpdatedShows(db: Db, next: Db, before: Package, es: seq<Entry>, e: Entry, row: Package)
    requires PackageOnly(es) && RowShowsEntries(db, before, es) && Updates(db, before, e, row)
    requires KeepsVersions(db, next)
    ensures PackageOnly(es + [e]) && RowShowsEntries(next, row, es + [e])
  {
    hide HistoryShows, DatedShows, FullShows, Updates, KeepsVersions;
    UpdatedHistory(db, before, es, e, row);
    UpdatedDated(db, before, es, e, row);
    UpdatedFull(db, before, es, e, row);
    StillShowsEntries(db, next, row, es + [e]);
  }

  lemma EntriesNext(log: seq<Entry>, m: nat, n: Name)
    requires 0 < m <= |log|
    ensures PackageEntries(log, m, n)
         == PackageEntries(log, m - 1, n) + if IsPackageEntry(log[m - 1], n) then [log[m - 1]] else []
  {
  }

  /** What an entry does to the rows of packages: only its own package's row changes, and only if it is about the
      package. */
  lemma ReplayRows(db: Db, e: Entry)
    requires DbOk(db) && Replay(db, e).Some?
    ensures var next := Replay(db, e).value;
      && DbOk(next) && KeepsVersions(db, next)
      && (forall n :: n in next.names <==> n in db.names || (e.instr.CreatePackage? && n == e.package))
      && (forall n :: n in db.names && !IsPackageEntry(e, n) ==>
           next.packages[next.names[n]] == db.packages[db.names[n]])
  {
    ReplayOk(db, e);
    ReplayKeepsVersions(db, e);
    hide DepTableOk, Extends, UpsertAll, Recount, NewVersionRow, SameVersion, Patched, VersionOk, KeepsVersions;
  }

  lemma OwnRow(db: Db, e: Entry)
    requires DbOk(db) && Replay(db, e).Some? && IsPackageEntry(e, e.package)
    ensures var next := Replay(db, e).value;
      && e.package in next.names && next.names[e.package] < |next.packages|
      && var row := next.packages[next.names[e.package]];
      && (e.instr.CreatePackage? ==>
           e.package !in db.names && NewPackageRow(e.package, e.instr.data, e.seqId, e.entryId) == Some(row))
      && (e.instr.UpdatePackage? ==> e.package in db.names && Updates(db, db.packages[db.names[e.package]], e, row))
  {
    hide DepTableOk, VersionOk;
  }

  lemma RowNext(db: Db, log: seq<Entry>, m: nat, n: Name)
    requires 0 < m <= |log| && DbOk(db) && Replay(db, log[m - 1]).Some? && DbOk(Replay(db, log[m - 1]).value)
    requires RowFollows(db, log, m - 1, n)
    ensures RowFollows(Replay(db, log[m - 1]).value, log, m, n)
  {
    hide DbOk, RowShowsEntries, Replay, KeepsVersions, Updates, NewPackageRow;
    var e, next, es := log[m - 1], Replay(db, log[m - 1]).value, PackageEntries(log, m - 1, n);
    ReplayRows(db, e);
    NamesOk(db);
    NamesOk(next);
    EntriesNext(log, m, n);
    if IsPackageEntry(e, n) {
      OwnRow(db, e);
      var row := next.packages[next.names[n]];
      if e.instr.CreatePackage? {
        CreatedShows(next, e);
        assert [] + [e] == [e];
      } else {
        UpdatedShows(db, next, db.packages[db.names[n]], es, e, row);
      }
    } else if n in db.names {
      StillShowsEntries(db, next, db.packages[db.names[n]], es);
      assert es + [] == es;
    }
  }

  lemma NamesOk(db: Db)
    requires DbOk(db)
    ensures forall n :: n in db.names ==> db.names[n] < |db.packages|
  {
  }

  /** For every log: each package that the log creates has a row that shows its entries, and no other has a row. */
  lemma {:induction false} RowsShowLog(log: seq<Entry>, m: nat, n: Name)
    requires m <= |log| && ReplayAll(log, m).Some?
    ensures RowFollows(ReplayAll(log, m).value, log, m, n)
  {
    hide DbOk, Replay, RowFollows;
    if m > 0 {
      RowsShowLog(log, m - 1, n);
      ReplayOk(ReplayAll(log, m - 1).value, log[m - 1]);
      RowNext(ReplayAll(log, m - 1).value, log, m, n);
    } else {
      EmptyRows(log, n);
    }
  }

  lemma EmptyRows(log: seq<Entry>, n: Name)
    ensures DbOk(EMPTY) && RowFollows(EMPTY, log, 0, n)
  {
  }

  // ---------- Snapshots ----------

  lemma {:induction false} LastIsLogged(log: seq<Entry>, m: nat, n: Name)
    requires m <= |log|
    ensures var es := PackageEntries(log, m, n);
      LoggedPackage(log, m, n) == if es == [] then None else Some(es[|es| - 1].instr.data)
  {
    if m > 0 {
      LastIsLogged(log, m - 1, n);
    }
  }

  /** The row is that of normal package data, as they are. */
  predicate ShowsNormal(db: Db, row: Package, n: Name, data: PackageData)
    requires data.Normal?
  {
    && row.created == Some(data.created) && row.modified == Some(data.modified)
    && row.otherTags == Some(data.otherTags) && row.otherTimes == Some(Wrapped(data.times)) && row.unpublished == None
    && match data.latest
       case None => row.latest == None
       case Some(v) =>
         n in db.names && (db.names[n], v) in db.versionIds && row.latest == Some(db.versionIds[(db.names[n], v)])
  }

  lemma LastRowShows(db: Db, row: Package, n: Name, es: seq<Entry>)
    requires PackageOnly(es) && RowShowsEntries(db, row, es) && forall i :: 0 <= i < |es| ==> es[i].package == n
    ensures es != [] && IsState(row.state, es[|es| - 1].instr.data)
    ensures es[|es| - 1].instr.data.Normal? ==> ShowsNormal(db, row, n, es[|es| - 1].instr.data)
  {
    var i := |es| - 1;
    if es[i].instr.data.Normal? {
      assert LastDated(es, i) && LastFull(es, i);
    }
  }

  /** For every history whose log is replayed: the row of each package that changed has the state of its last
      snapshot, and shows it column by column if it is a normal one. */
  lemma HistoryPackage(es: seq<Event>, n: Name)
    requires TablesAfter(es).Some? && LastPackage(es, n).Some?
    ensures var db, data := TablesAfter(es).value, LastPackage(es, n).value;
      && n in db.names && db.names[n] < |db.packages|
      && IsState(db.packages[db.names[n]].state, data)
      && (data.Normal? ==> ShowsNormal(db, db.packages[db.names[n]], n, data))
  {
    hide IsState, ShowsNormal, RowShowsEntries;
    var db, log := TablesAfter(es).value, LogAfter(es);
    RowsShowLog(log, |log|, n);
    LogsLastPackage(es, n);
    LastIsLogged(log, |log|, n);
    NamesOk(db);
    LastRowShows(db, db.packages[db.names[n]], n, PackageEntries(log, |log|, n));
  }
}
