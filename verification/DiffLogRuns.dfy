/** Histories of the diff-log builder: what it remembers of a package, what its table stores, and what its log says,
    after any sequence of changes in any batches (diff_log_builder/src/lib.rs,
    postgres_db/src/diff_log/internal_diff_log_state/manager.rs). */
module DiffLogRuns {
  import opened Optional
  import opened RelationalModel
  import opened DiffLogModel

  // ---------- Logs of several packages ----------

  type Known = map<Name, set<Semver>>

  function At(known: Known, n: Name): Created {
    if n in known then Some(known[n]) else None
  }

  /** What a log has created. */
  function KnownAfter(log: seq<Entry>): Known
    decreases |log|
  {
    if log == [] then map[] else
      var before, e := KnownAfter(log[..|log| - 1]), log[|log| - 1];
      var c := AfterReplay(At(before, e.package), e.instr);
      if c.Some? then before[e.package := c.value] else before
  }

  /** Every entry of the log refers to what was created before it, and creates nothing twice. */
  predicate LogReplays(log: seq<Entry>)
    decreases |log|
  {
    log == [] || (LogReplays(log[..|log| - 1])
      && CanReplay(At(KnownAfter(log[..|log| - 1]), log[|log| - 1].package), log[|log| - 1].instr))
  }

  /** The log entries of a change, numbered on from `at`. */
  function Tagged(n: Name, seqId: int, ds: seq<Hashed>, at: nat): (r: seq<Entry>)
    ensures |r| == |ds|
  {
    seq(|ds|, i requires 0 <= i < |ds| => Entry(n, ds[i].instr, seqId, at + i))
  }

  /** Appending instructions for a package that its own history can replay keeps the whole log replayable. */
  lemma {:induction false} AppendReplays(log: seq<Entry>, n: Name, seqId: int, ds: seq<Hashed>)
    requires LogReplays(log) && AllReplay(At(KnownAfter(log), n), ds)
    ensures var more := log + Tagged(n, seqId, ds, |log|);
      LogReplays(more) && At(KnownAfter(more), n) == CreatedBy(At(KnownAfter(log), n), ds)
    ensures forall m :: m != n ==> At(KnownAfter(log + Tagged(n, seqId, ds, |log|)), m) == At(KnownAfter(log), m)
    decreases |ds|
  {
    if ds == [] {
      assert log + Tagged(n, seqId, ds, |log|) == log;
    } else {
      var rest, d := ds[..|ds| - 1], ds[|ds| - 1];
      var before, more := log + Tagged(n, seqId, rest, |log|), log + Tagged(n, seqId, ds, |log|);
      AppendReplays(log, n, seqId, rest);
      assert more[..|more| - 1] == before;
      assert more[|more| - 1] == Entry(n, d.instr, seqId, |log| + |ds| - 1);
    }
  }

  // ---------- Histories ----------

  /** A change: its sequence number, its package and its document. */
  datatype ChangeRec = ChangeRec(seqId: int, name: Name, doc: Doc)

  /** Design documents are not packages. */
  predicate Ignored(n: Name) {
    n == "_design/app" || n == "_design/scratch"
  }

  /** A change, with the order in which its versions are visited, or the end of a batch. */
  datatype Event = Changed(c: ChangeRec, order: seq<Semver>) | BatchEnds

  predicate IsChangeOf(e: Event, n: Name) {
    e.Changed? && e.c.name == n && !Ignored(n)
  }

  /** What is in the package's row, what the batch remembers, and whether the batch will write the row. */
  datatype PackageView = PackageView(stored: Option<PackageInfo>, local: Option<PackageInfo>, writes: bool)

  ghost function ViewStep(w: PackageView, e: Event, n: Name): PackageView {
    if e.BatchEnds? then
      if w.writes then PackageView(w.local, w.local, false) else PackageView(w.stored, w.stored, false)
    else if !IsChangeOf(e, n) then w
    else
      var (data, snap) := Snapshot(e.c.doc);
      PackageView(w.stored, Some(Converged(KnownVersions(w.local), data, snap)),
                  w.writes || w.local == None || NeedsRow(w.local.value, data, snap))
  }

  ghost function ViewAfter(es: seq<Event>, n: Name): PackageView {
    if es == [] then PackageView(None, None, false)
    else ViewStep(ViewAfter(es[..|es| - 1], n), es[|es| - 1], n)
  }

  /** The versions that the builder remembers. */
  ghost function Remembered(es: seq<Event>, n: Name): map<Semver, VersionInfo> {
    KnownVersions(ViewAfter(es, n).local)
  }

  /** Each change visits the versions that are remembered or in its snapshot, each once. */
  ghost predicate Ordered(es: seq<Event>) {
    es == [] || (Ordered(es[..|es| - 1]) && OrderFits(es[..|es| - 1], es[|es| - 1]))
  }

  ghost predicate OrderFits(es: seq<Event>, e: Event) {
    e.Changed? && !Ignored(e.c.name) ==> Visits(e.order, Remembered(es, e.c.name), Snapshot(e.c.doc).1)
  }

  /** The instructions of an event. */
  ghost function EventInstrs(es: seq<Event>, e: Event): seq<Hashed> {
    if e.BatchEnds? || Ignored(e.c.name) then []
    else
      var (data, snap) := Snapshot(e.c.doc);
      ChangeInstrs(ViewAfter(es, e.c.name).local, data, snap, e.order)
  }

  ghost function EventEntries(es: seq<Event>, e: Event, at: nat): seq<Entry> {
    if e.BatchEnds? then [] else Tagged(e.c.name, e.c.seqId, EventInstrs(es, e), at)
  }

  /** The log that a history writes. */
  ghost function LogAfter(es: seq<Event>): seq<Entry> {
    if es == [] then []
    else
      var log := LogAfter(es[..|es| - 1]);
      log + EventEntries(es[..|es| - 1], es[|es| - 1], |log|)
  }

  /** The row and the state have the same package data and versions unless the row will be written; what is stored as
      deleted is remembered as deleted. */
  ghost predicate ViewOk(w: PackageView) {
    && (w.writes ==> w.local.Some?)
    && (w.local.Some? ==> w.local.value.hash.Some?)
    && (w.stored.Some? ==> w.local.Some? && StillKnown(w.stored.value, w.local.value))
    && (!w.writes && w.local.Some? ==> w.stored.Some? && SameData(w.stored.value, w.local.value))
  }

  predicate SameData(stored: PackageInfo, info: PackageInfo) {
    stored.hash == info.hash && stored.versions.Keys == info.versions.Keys
  }

  predicate StillKnown(stored: PackageInfo, info: PackageInfo) {
    forall v :: v in stored.versions ==>
      v in info.versions && (stored.versions[v].deleted ==> info.versions[v].deleted)
  }

  lemma ChangeOk(w: PackageView, data: PackageData, snap: Versions)
    requires ViewOk(w)
    ensures ViewOk(PackageView(w.stored, Some(Converged(KnownVersions(w.local), data, snap)),
                               w.writes || w.local == None || NeedsRow(w.local.value, data, snap)))
  {
    if w.local.Some? && !NeedsRow(w.local.value, data, snap) {
      assert Converged(w.local.value.versions, data, snap).versions.Keys == w.local.value.versions.Keys;
    }
  }

  lemma {:induction false} ViewIsOk(es: seq<Event>, n: Name)
    ensures ViewOk(ViewAfter(es, n))
  {
    if es != [] {
      ViewIsOk(es[..|es| - 1], n);
      var e := es[|es| - 1];
      if IsChangeOf(e, n) {
        ChangeOk(ViewAfter(es[..|es| - 1], n), Snapshot(e.c.doc).0, Snapshot(e.c.doc).1);
      }
    }
  }

  /** Every history writes a log that refers only to what it has created, creates nothing twice, and has created what
      the builder remembers. */
  lemma {:induction false} HistoryReplays(es: seq<Event>)
    requires Ordered(es)
    ensures LogReplays(LogAfter(es))
    ensures forall n :: At(KnownAfter(LogAfter(es)), n) == CreatedIn(ViewAfter(es, n).local)
  {
    hide Visits, ChangeInstrs, Converged, NeedsRow, AllReplay, CanReplay;
    if es != [] {
      var before, e := es[..|es| - 1], es[|es| - 1];
      HistoryReplays(before);
      if e.BatchEnds? {
        forall n ensures CreatedIn(ViewAfter(es, n).local) == CreatedIn(ViewAfter(before, n).local) {
          ViewIsOk(before, n);
        }
        assert LogAfter(es) == LogAfter(before);
      } else if Ignored(e.c.name) {
        assert LogAfter(es) == LogAfter(before);
      } else {
        var (data, snap) := Snapshot(e.c.doc);
        SnapshotIsOk(e.c.doc);
        ChangeReplays(ViewAfter(before, e.c.name).local, data, snap, e.order);
        AppendReplays(LogAfter(before), e.c.name, e.c.seqId, EventInstrs(before, e));
      }
    }
  }

  /** A change that the row must be written for. */
  ghost predicate CallsForRow(es: seq<Event>, j: nat, n: Name)
    requires j < |es|
  {
    IsChangeOf(es[j], n)
    && (ViewAfter(es[..j], n).local == None
        || NeedsRow(ViewAfter(es[..j], n).local.value, Snapshot(es[j].c.doc).0, Snapshot(es[j].c.doc).1))
  }

  /** During a batch the row stays, and will be written if and only if some change so far calls for it. */
  lemma {:induction false} BatchWrites(es: seq<Event>, f: nat, m: nat, n: Name)
    requires f <= m <= |es| && !ViewAfter(es[..f], n).writes && forall j :: f <= j < m ==> !es[j].BatchEnds?
    ensures ViewAfter(es[..m], n).writes <==> exists j :: f <= j < m && CallsForRow(es, j, n)
    ensures ViewAfter(es[..m], n).stored == ViewAfter(es[..f], n).stored
  {
    if f < m {
      BatchWrites(es, f, m - 1, n);
      assert es[..m][..m - 1] == es[..m - 1];
      assert ViewAfter(es[..m], n).writes <==> ViewAfter(es[..m - 1], n).writes || CallsForRow(es, m - 1, n);
    }
  }

  /** When a batch ends, the row is what the batch remembers if some change called for it, and is the row of before
      otherwise; the next batch starts from the row. */
  lemma BatchRow(es: seq<Event>, f: nat, m: nat, n: Name)
    requires f <= m < |es| && !ViewAfter(es[..f], n).writes && forall j :: f <= j < m ==> !es[j].BatchEnds?
    requires es[m].BatchEnds?
    ensures var row := if exists j :: f <= j < m && CallsForRow(es, j, n)
                       then ViewAfter(es[..m], n).local else ViewAfter(es[..f], n).stored;
      ViewAfter(es[..m + 1], n) == PackageView(row, row, false)
  {
    BatchWrites(es, f, m, n);
    assert es[..m + 1][..m] == es[..m];
  }

  /** Every entry of a history's log has its place as its id, and package and sequence number of a change. */
  lemma {:induction false} LogNumbered(es: seq<Event>, i: nat)
    requires i < |LogAfter(es)|
    ensures LogAfter(es)[i].entryId == i && exists j :: 0 <= j < |es| && ComesFrom(LogAfter(es)[i], es[j])
  {
    var before, e := es[..|es| - 1], es[|es| - 1];
    if i < |LogAfter(before)| {
      LogNumbered(before, i);
      var j :| 0 <= j < |before| && ComesFrom(LogAfter(before)[i], before[j]);
      assert es[j] == before[j];
    } else {
      assert ComesFrom(LogAfter(es)[i], es[|es| - 1]);
    }
  }

  predicate ComesFrom(entry: Entry, e: Event) {
    e.Changed? && entry.package == e.c.name && entry.seqId == e.c.seqId
  }

  /** A package is created with the data of its first snapshot, but for the latest version, which is not there yet. */
  lemma WithoutLatestKeeps(data: PackageData)
    ensures data.Normal? ==>
      WithoutLatest(data) == Normal(None, data.created, data.modified, data.otherTags, data.times)
    ensures !data.Normal? ==> WithoutLatest(data) == data
  {
  }
}
