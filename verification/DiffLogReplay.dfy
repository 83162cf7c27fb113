/** The builder's logs meet the relational replay: what can still make it panic, and what breaks its counters
    (diff_log_builder/src/lib.rs, relational_db_builder/src/lib.rs). */
module DiffLogReplay {
  import opened Optional
  import opened RelationalModel
  import opened RelationalRuns
  import opened DiffLogModel
  import opened DiffLogRuns

  /** What the tables have of a package: nothing, or the package and these versions. */
  function InTables(db: Db, n: Name): Created {
    if n in db.names then Some(set k | k in db.versionIds && k.0 == db.names[n] :: k.1) else None
  }

  /** What an entry's data must satisfy besides referring to what exists: the version times of an unpublished package
      cannot be stored by an update, a new version lists no package twice under one kind, and an update of a version
      changes neither its dependencies nor its tarball nor its repository. */
  predicate DataOk(db: Db, e: Entry)
    requires DbOk(db)
  {
    match e.instr
    case UpdatePackage(data) => data.Unpublished? ==> data.times == map[]
    case CreateVersion(_, data) => AllUnique(data)
    case UpdateVersion(v, data) =>
      var id := FindVersion(db, e, v);
      id.Some? ==>
        id.value < |db.versions| && VersionRowsOk(db, id.value)
        && SameVersion(db.deps.rows, db.versions[id.value], data)
    case _ => true
  }

  predicate VersionRowsOk(db: Db, id: Id)
    requires id < |db.versions|
  {
    forall k: Kind :: InRows(db.deps.rows, db.versions[id].Deps(k))
  }

  /** The replay of an entry succeeds if and only if the entry refers to what exists, creates what does not, and its
      data are right. */
  lemma ReplaySucceeds(db: Db, e: Entry)
    requires DbOk(db)
    ensures Replay(db, e).Some? <==> CanReplay(InTables(db, e.package), e.instr) && DataOk(db, e)
  {
  }

  /** A successful replay changes what the tables have of each package as the entry says. */
  lemma ReplayCreates(db: Db, e: Entry, n: Name)
    requires DbOk(db) && Replay(db, e).Some?
    ensures InTables(Replay(db, e).value, n)
         == if n == e.package then AfterReplay(InTables(db, n), e.instr) else InTables(db, n)
  {
    hide DepTableOk, VersionOk, Recount, UpsertAll, SameVersion, NewVersionRow;
    var next := Replay(db, e).value;
    match e.instr {
      case CreatePackage(_) => FreshPackage(db, e);
      case CreateVersion(v, _) =>
        VersionIndexed(db, n, e.package, v);
        assert next.versionIds == db.versionIds[(db.names[e.package], v) := |db.versions|];
      case _ =>
        assert next.names == db.names && next.versionIds == db.versionIds;
    }
  }

  /** A new version is found under its own package only. */
  lemma VersionIndexed(db: Db, n: Name, p: Name, v: Semver)
    requires DbOk(db) && p in db.names
    ensures var more := db.(versionIds := db.versionIds[(db.names[p], v) := |db.versions|]);
      InTables(more, n) == if n == p then Some(InTables(db, p).value + {v}) else InTables(db, n)
  {
    var more := db.(versionIds := db.versionIds[(db.names[p], v) := |db.versions|]);
    if n == p {
      assert InTables(more, p).value == InTables(db, p).value + {v};
    } else if n in db.names {
      assert db.names[n] != db.names[p];
      assert InTables(more, n).value == InTables(db, n).value;
    }
  }

  /** A new package has no versions, and the others keep theirs. */
  lemma FreshPackage(db: Db, e: Entry)
    requires DbOk(db) && e.package !in db.names
    ensures var names := db.names[e.package := |db.packages|];
      InTables(db.(names := names), e.package) == Some({})
      && forall n :: n != e.package ==> InTables(db.(names := names), n) == InTables(db, n)
  {
    forall k | k in db.versionIds ensures k.0 != |db.packages| {
      assert VersionAt(db, db.versionIds[k], k.0, k.1);
      assert VersionOk(db, db.versions[db.versionIds[k]]);
    }
    var names := db.names[e.package := |db.packages|];
    assert InTables(db.(names := names), e.package).value == {};
  }

  /** The data of the first `n` entries are right for the tables that they meet. */
  ghost predicate AllDataOk(log: seq<Entry>, n: nat)
    requires n <= |log|
  {
    n == 0 || (AllDataOk(log, n - 1)
      && (ReplayAll(log, n - 1).Some? ==> DataOk(ReplayAll(log, n - 1).value, log[n - 1])))
  }

  /** A log of the builder is replayed to its end if and only if the data of its entries are right: no entry fails
      because of what does not exist, or exists already. The tables then have what the log has created. */
  lemma {:induction false} BuilderLogReplays(log: seq<Entry>, n: nat)
    requires n <= |log| && LogReplays(log)
    ensures ReplayAll(log, n).Some? <==> AllDataOk(log, n)
    ensures ReplayAll(log, n).Some? ==>
      forall p :: InTables(ReplayAll(log, n).value, p) == At(KnownAfter(log[..n]), p)
  {
    hide DbOk, Replay, DataOk, CanReplay, AfterReplay, InTables;
    if n > 0 {
      BuilderLogReplays(log, n - 1);
      PrefixReplays(log, n);
      LastEntry(log, n);
      if ReplayAll(log, n - 1).Some? {
        EntryFollows(ReplayAll(log, n - 1).value, log[n - 1], KnownAfter(log[..n - 1]));
      }
    } else {
      EmptyFollows();
    }
  }

  lemma EmptyFollows()
    ensures forall p :: InTables(EMPTY, p) == None
  {
  }

  lemma LastEntry(log: seq<Entry>, n: nat)
    requires 0 < n <= |log| && LogReplays(log[..n])
    ensures CanReplay(At(KnownAfter(log[..n - 1]), log[n - 1].package), log[n - 1].instr)
    ensures forall p :: At(KnownAfter(log[..n]), p) == Grown(At(KnownAfter(log[..n - 1]), p), log[n - 1], p)
  {
    assert log[..n][..n - 1] == log[..n - 1];
  }

  /** What has been created of `p` after the entry. */
  function Grown(c: Created, e: Entry, p: Name): Created {
    if p == e.package then AfterReplay(c, e.instr) else c
  }

  /** If the tables have what the log has created, an entry that the log can replay succeeds just when its data are
      right, and the tables follow. */
  lemma EntryFollows(db: Db, e: Entry, known: Known)
    requires DbOk(db) && (forall p :: InTables(db, p) == At(known, p)) && CanReplay(At(known, e.package), e.instr)
    ensures Replay(db, e).Some? <==> DataOk(db, e)
    ensures Replay(db, e).Some? ==> forall p :: InTables(Replay(db, e).value, p) == Grown(At(known, p), e, p)
  {
    hide DbOk, Replay, DataOk, CanReplay, AfterReplay, InTables;
    ReplaySucceeds(db, e);
    if Replay(db, e).Some? {
      forall p ensures InTables(Replay(db, e).value, p) == Grown(At(known, p), e, p) {
        ReplayCreates(db, e, p);
      }
    }
  }

  lemma {:induction false} PrefixReplays(log: seq<Entry>, n: nat)
    requires n <= |log| && LogReplays(log)
    ensures LogReplays(log[..n])
    decreases |log|
  {
    if n < |log| {
      assert log[..|log| - 1][..n] == log[..n];
      PrefixReplays(log[..|log| - 1], n);
    } else {
      assert log[..n] == log;
    }
  }

  /** Replaying the same deletion of a live version with dependencies twice succeeds, and leaves the counts wrong. */
  lemma SecondDeleteBreaksCounts(db: Db, e: Entry, id: Id, next: Db)
    requires DbOk(db) && Conserved(db) && e.instr.DeleteVersion? && Replay(db, e) == Some(next)
    requires FindVersion(db, e, e.instr.v) == Some(id) && id < |db.versions|
    requires db.versions[id].state == IsLive && !ListsNothing(db.versions[id])
    ensures DbOk(next) && Conserved(next) && Replay(next, e).Some?
    ensures DbOk(Replay(next, e).value) && !Conserved(Replay(next, e).value)
  {
    DeletedStays(db, e, id, next);
    hide DbOk, Conserved, Replay;
    ReplayConserves(db, e);
    DeletedStays(db, e, id, next);
    ReplayConserves(next, e);
  }

  lemma DeletedStays(db: Db, e: Entry, id: Id, next: Db)
    requires DbOk(db) && e.instr.DeleteVersion? && Replay(db, e) == Some(next)
    requires FindVersion(db, e, e.instr.v) == Some(id) && id < |db.versions|
    ensures FindVersion(next, e, e.instr.v) == Some(id) && |next.versions| == |db.versions|
    ensures next.versions[id].state == IsGone && (ListsNothing(next.versions[id]) <==> ListsNothing(db.versions[id]))
    ensures DbOk(next) && Replay(next, e).Some?
  {
    ReplayOk(db, e);
  }
}
