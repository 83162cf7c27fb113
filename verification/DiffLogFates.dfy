/** What the builder's log says of each version, told by the history of snapshots: when a version is deleted twice,
    and when the log's versions are those of the last snapshot (diff_log_builder/src/lib.rs,
    postgres_db/src/diff_log/internal_diff_log_state/manager.rs). */
module DiffLogFates {
  import opened Optional
  import opened RelationalModel
  import opened DiffLogModel
  import opened DiffLogRuns

  /** What a log says of a version: what it was created with, what was logged of it last, whether it is deleted, and
      whether it was ever deleted while it was deleted already. */
  datatype Fate = Fate(created: Option<VersionData>, logged: Option<VersionData>, gone: bool, twice: bool)

  const UNBORN := Fate(None, None, false, false)

  function FateStep(f: Fate, instr: Instr, v: Semver): Fate {
    match instr
    case CreateVersion(w, data) => if w == v then Fate(Some(data), Some(data), false, f.twice) else f
    case UpdateVersion(w, data) => if w == v then f.(gone := false, logged := Some(data)) else f
    case DeleteVersion(w) => if w == v then f.(gone := true, twice := f.twice || f.gone) else f
    case _ => f
  }

  /** The fate of a version by the first `m` entries of a log. */
  function FateBy(log: seq<Entry>, m: nat, n: Name, v: Semver): Fate
    requires m <= |log|
  {
    if m == 0 then UNBORN
    else if log[m - 1].package != n then FateBy(log, m - 1, n, v)
    else FateStep(FateBy(log, m - 1, n, v), log[m - 1].instr, v)
  }

  /** The fate of a version after more instructions for its package. */
  function FateOf(f: Fate, ds: seq<Hashed>, v: Semver): Fate
    decreases |ds|
  {
    if ds == [] then f else FateStep(FateOf(f, ds[..|ds| - 1], v), ds[|ds| - 1].instr, v)
  }

  lemma {:induction false} FateConcat(f: Fate, a: seq<Hashed>, b: seq<Hashed>, v: Semver)
    ensures FateOf(f, a + b, v) == FateOf(FateOf(f, a, v), b, v)
    decreases |b|
  {
    if b == [] {
      assert a + b == a;
    } else {
      assert (a + b)[..|a + b| - 1] == a + b[..|b| - 1];
      FateConcat(f, a, b[..|b| - 1], v);
    }
  }

  lemma FateOne(f: Fate, d: Hashed, v: Semver)
    ensures FateOf(f, [d], v) == FateStep(f, d.instr, v)
  {
    assert [d][..0] == [];
  }

  lemma {:induction false} FatePrefix(log: seq<Entry>, more: seq<Entry>, m: nat, n: Name, v: Semver)
    requires m <= |log|
    ensures FateBy(log + more, m, n, v) == FateBy(log, m, n, v)
  {
    if m > 0 {
      FatePrefix(log, more, m - 1, n, v);
    }
  }

  /** Logging instructions continues the fates of their package's versions, and no others. */
  lemma {:induction false} FateLogged(log: seq<Entry>, p: Name, seqId: int, ds: seq<Hashed>, at: nat, i: nat,
                                      n: Name, v: Semver)
    requires i <= |ds|
    ensures FateBy(log + Tagged(p, seqId, ds, at), |log| + i, n, v)
         == if p == n then FateOf(FateBy(log, |log|, n, v), ds[..i], v) else FateBy(log, |log|, n, v)
  {
    if i > 0 {
      FateLogged(log, p, seqId, ds, at, i - 1, n, v);
      assert ds[..i][..i - 1] == ds[..i - 1];
    } else {
      FatePrefix(log, Tagged(p, seqId, ds, at), |log|, n, v);
    }
  }

  // ---------- A change ----------

  /** What a change does to the fate of a version of its package. */
  function FateChange(f: Fate, known: map<Semver, VersionInfo>, snap: Versions, v: Semver): Fate {
    if v !in snap then
      if v in known && !known[v].deleted then f.(gone := true, twice := f.twice || f.gone) else f
    else if v !in known then Fate(Some(snap[v]), Some(snap[v]), false, f.twice)
    else if known[v].hash != OfVersion(snap[v]) then f.(gone := false, logged := Some(snap[v]))
    else f
  }

  lemma FateVisit(f: Fate, known: map<Semver, VersionInfo>, snap: Versions, w: Semver, v: Semver)
    ensures FateOf(f, VersionInstr(known, snap, w), v) == if w == v then FateChange(f, known, snap, v) else f
  {
    if VersionInstr(known, snap, w) != [] {
      FateOne(f, VersionInstr(known, snap, w)[0], v);
    }
  }

  lemma {:induction false} FateVisits(f: Fate, known: map<Semver, VersionInfo>, snap: Versions, order: seq<Semver>,
                                      i: nat, v: Semver)
    requires i <= |order| && forall j, k :: 0 <= j < k < |order| ==> order[j] != order[k]
    ensures FateOf(f, VersionInstrs(known, snap, order, i), v)
         == if Among(order, i, v) then FateChange(f, known, snap, v) else f
  {
    if i > 0 {
      FateVisits(f, known, snap, order, i - 1, v);
      FateConcat(f, VersionInstrs(known, snap, order, i - 1), VersionInstr(known, snap, order[i - 1]), v);
      FateVisit(FateOf(f, VersionInstrs(known, snap, order, i - 1), v), known, snap, order[i - 1], v);
      if Among(order, i, v) && order[i - 1] != v {
        var j :| 0 <= j < i && order[j] == v;
        assert Among(order, i - 1, v);
      }
      assert order[i - 1] == v ==> Among(order, i, v) && !Among(order, i - 1, v);
    }
  }

  /** The instructions of a change continue the fate of each version as the change says. */
  lemma FateChanges(f: Fate, state: Option<PackageInfo>, data: PackageData, snap: Versions, order: seq<Semver>,
                    v: Semver)
    requires Visits(order, KnownVersions(state), snap)
    ensures FateOf(f, ChangeInstrs(state, data, snap, order), v) == FateChange(f, KnownVersions(state), snap, v)
  {
    var known := KnownVersions(state);
    var vs := VersionInstrs(known, snap, order, |order|);
    FateVisits(f, known, snap, order, |order|, v);
    assert v in order <==> Among(order, |order|, v);
    var update := [Hashed(UpdatePackage(data), Some(OfPackage(data)))];
    FateConcat(f, vs, update, v);
    FateOne(FateOf(f, vs, v), update[0], v);
    if state == None {
      var create := [Hashed(CreatePackage(WithoutLatest(data)), if data.Normal? then None else Some(OfPackage(data)))];
      var more, patch := if data.Normal? then update else [], [Hashed(PatchPackageReferences, None)];
      FateOne(f, create[0], v);
      FateConcat(f, create, vs, v);
      FateConcat(f, create + vs, more, v);
      FateOne(FateOf(f, vs, v), update[0], v);
      FateConcat(f, create + vs + more, patch, v);
      FateOne(FateOf(f, create + vs + more, v), patch[0], v);
    } else {
      assert vs + [] == vs;
    }
  }

  // ---------- A history ----------

  /** The fate of a version, told by the history. */
  ghost function FateIn(es: seq<Event>, n: Name, v: Semver): Fate {
    if es == [] then UNBORN
    else
      var before, e := es[..|es| - 1], es[|es| - 1];
      if IsChangeOf(e, n)
      then FateChange(FateIn(before, n, v), Remembered(before, n), Snapshot(e.c.doc).1, v)
      else FateIn(before, n, v)
  }

  /** The entries of an event continue the fates as the event says. */
  lemma EventTells(es: seq<Event>, e: Event, log: seq<Entry>, n: Name, v: Semver)
    requires OrderFits(es, e)
    ensures var f, more := FateBy(log, |log|, n, v), EventEntries(es, e, |log|);
      FateBy(log + more, |log + more|, n, v)
        == if IsChangeOf(e, n) then FateChange(f, Remembered(es, n), Snapshot(e.c.doc).1, v) else f
  {
    hide Visits, ChangeInstrs, FateChange, Snapshot, ViewAfter;
    if e.Changed? {
      var ds := EventInstrs(es, e);
      FateLogged(log, e.c.name, e.c.seqId, ds, |log|, |ds|, n, v);
      assert ds[..|ds|] == ds;
      if IsChangeOf(e, n) {
        var (data, snap) := Snapshot(e.c.doc);
        FateChanges(FateBy(log, |log|, n, v), ViewAfter(es, n).local, data, snap, e.order, v);
      } else {
        assert e.c.name != n || (ds == [] && FateOf(FateBy(log, |log|, n, v), [], v) == FateBy(log, |log|, n, v));
      }
    } else {
      assert log + [] == log;
    }
  }

  /** The log says of each version what the history says. */
  lemma {:induction false} LogTellsFates(es: seq<Event>, n: Name, v: Semver)
    requires Ordered(es)
    ensures FateBy(LogAfter(es), |LogAfter(es)|, n, v) == FateIn(es, n, v)
  {
    hide OrderFits, FateChange, Snapshot, EventEntries, Remembered, FateBy;
    if es != [] {
      var before, e := es[..|es| - 1], es[|es| - 1];
      LogTellsFates(before, n, v);
      EventTells(before, e, LogAfter(before), n, v);
    } else {
      NothingSaid(n, v);
    }
  }

  lemma NothingSaid(n: Name, v: Semver)
    ensures FateBy([], 0, n, v) == UNBORN
  {
  }

  // ---------- Versions that are deleted twice ----------

  ghost function SnapAt(es: seq<Event>, j: nat): Versions
    requires j < |es| && es[j].Changed?
  {
    Snapshot(es[j].c.doc).1
  }

  /** Event `j` is a change of the package whose snapshot lacks the version. */
  ghost predicate Lacks(es: seq<Event>, j: nat, n: Name, v: Semver)
    requires j < |es|
  {
    IsChangeOf(es[j], n) && v !in SnapAt(es, j)
  }

  /** Event `j` has the version in its snapshot, as the builder remembers it. */
  ghost predicate HasAsRemembered(es: seq<Event>, j: nat, n: Name, v: Semver)
    requires j < |es|
  {
    && IsChangeOf(es[j], n) && v in SnapAt(es, j)
    && v in Remembered(es[..j], n) && Remembered(es[..j], n)[v].hash == OfVersion(SnapAt(es, j)[v])
  }

  /** Event `j` has the builder delete a version that it does not remember as deleted. */
  ghost predicate Removes(es: seq<Event>, j: nat, n: Name, v: Semver)
    requires j < |es|
  {
    Lacks(es, j, n, v) && v in Remembered(es[..j], n) && !Remembered(es[..j], n)[v].deleted
  }

  /** The removal at `d` is forgotten: its batch ends at `f` without writing the package's row, and nothing revives
      the version before that. */
  ghost predicate Forgotten(es: seq<Event>, d: nat, f: nat, n: Name, v: Semver) {
    && d < f < |es| && Removes(es, d, n, v) && es[f].BatchEnds? && !ViewAfter(es[..f], n).writes
    && (forall j :: d < j < f ==> !es[j].BatchEnds?)
    && (forall j :: d < j < f && IsChangeOf(es[j], n) ==> Lacks(es, j, n, v) || HasAsRemembered(es, j, n, v))
  }

  /** From `f` to `k`, every snapshot of the package has the version as the builder remembers it. */
  ghost predicate OnlyKept(es: seq<Event>, f: nat, k: nat, n: Name, v: Semver)
    requires k <= |es|
  {
    forall j :: f < j < k && IsChangeOf(es[j], n) ==> HasAsRemembered(es, j, n, v)
  }

  /** A removal is forgotten, and the next snapshot that does not have the version as remembered lacks it. */
  ghost predicate RemovedAgain(es: seq<Event>, d: nat, f: nat, k: nat, n: Name, v: Semver) {
    f < k < |es| && Forgotten(es, d, f, n, v) && OnlyKept(es, f, k, n, v) && Lacks(es, k, n, v)
  }

  /** The builder takes the version for live while the log says that it is deleted. */
  ghost predicate Mistaken(es: seq<Event>, n: Name, v: Semver) {
    v in Remembered(es, n) && !Remembered(es, n)[v].deleted && FateIn(es, n, v).gone
  }

  /** One event further. */
  lemma StepOf(es: seq<Event>, m: nat, n: Name, v: Semver)
    requires 0 < m <= |es|
    ensures ViewAfter(es[..m], n) == ViewStep(ViewAfter(es[..m - 1], n), es[m - 1], n)
    ensures FateIn(es[..m], n, v)
         == if IsChangeOf(es[m - 1], n)
            then FateChange(FateIn(es[..m - 1], n, v), Remembered(es[..m - 1], n), SnapAt(es, m - 1), v)
            else FateIn(es[..m - 1], n, v)
  {
    assert es[..m][..m - 1] == es[..m - 1];
  }

  /** What a change makes of what is remembered of a version. */
  lemma ChangeRemembers(es: seq<Event>, m: nat, n: Name, v: Semver)
    requires 0 < m <= |es| && IsChangeOf(es[m - 1], n)
    ensures var known, snap, after := Remembered(es[..m - 1], n), SnapAt(es, m - 1), Remembered(es[..m], n);
      && (v in after <==> v in known || v in snap)
      && (v in after ==> after[v] == FinalVersion(known, snap, v))
  {
    StepOf(es, m, n, v);
  }

  /** In a batch, a version that is gone though stored as live was removed by the batch, and was not revived. */
  lemma {:induction false} RemovalInBatch(es: seq<Event>, m: nat, n: Name, v: Semver) returns (d: nat)
    requires m <= |es| && v in Remembered(es[..m], n) && Remembered(es[..m], n)[v].deleted
    requires FateIn(es[..m], n, v).gone && ViewAfter(es[..m], n).stored.Some?
    requires v in ViewAfter(es[..m], n).stored.value.versions && !ViewAfter(es[..m], n).stored.value.versions[v].deleted
    ensures d < m && Removes(es, d, n, v) && forall j :: d < j < m ==> !es[j].BatchEnds?
    ensures forall j :: d < j < m && IsChangeOf(es[j], n) ==> Lacks(es, j, n, v) || HasAsRemembered(es, j, n, v)
  {
    assert m > 0;
    StepOf(es, m, n, v);
    if IsChangeOf(es[m - 1], n) {
      ChangeRemembers(es, m, n, v);
      if Removes(es, m - 1, n, v) {
        return m - 1;
      }
    }
    d := RemovalInBatch(es, m - 1, n, v);
  }

  /** The builder is mistaken only after it forgot a removal. */
  lemma {:induction false} MistakenSince(es: seq<Event>, m: nat, n: Name, v: Semver) returns (d: nat, f: nat)
    requires m <= |es| && Mistaken(es[..m], n, v)
    ensures f < m && Forgotten(es, d, f, n, v) && OnlyKept(es, f, m, n, v)
  {
    assert m > 0;
    StepOf(es, m, n, v);
    ViewIsOk(es[..m - 1], n);
    if IsChangeOf(es[m - 1], n) {
      ChangeRemembers(es, m, n, v);
      d, f := MistakenSince(es, m - 1, n, v);
    } else if es[m - 1].BatchEnds? && !Mistaken(es[..m - 1], n, v) {
      d := RemovalInBatch(es, m - 1, n, v);
      f := m - 1;
    } else {
      d, f := MistakenSince(es, m - 1, n, v);
    }
  }

  /** A removal leaves the version gone, remembered as deleted but stored as live, until the batch ends. */
  lemma {:induction false} RemovalLasts(es: seq<Event>, d: nat, m: nat, n: Name, v: Semver)
    requires d < m <= |es| && Removes(es, d, n, v) && forall j :: d < j < m ==> !es[j].BatchEnds?
    requires forall j :: d < j < m && IsChangeOf(es[j], n) ==> Lacks(es, j, n, v) || HasAsRemembered(es, j, n, v)
    ensures FateIn(es[..m], n, v).gone && v in Remembered(es[..m], n) && Remembered(es[..m], n)[v].deleted
    ensures ViewAfter(es[..m], n).stored == ViewAfter(es[..d], n).stored
  {
    StepOf(es, m, n, v);
    if IsChangeOf(es[m - 1], n) {
      ChangeRemembers(es, m, n, v);
    }
    if d < m - 1 {
      RemovalLasts(es, d, m - 1, n, v);
    }
  }

  /** After a removal was forgotten, the builder is mistaken as long as it sees the version as it remembers it. */
  lemma {:induction false} MistakeLasts(es: seq<Event>, d: nat, f: nat, m: nat, n: Name, v: Semver)
    requires f < m <= |es| && Forgotten(es, d, f, n, v) && OnlyKept(es, f, m, n, v)
    ensures Mistaken(es[..m], n, v)
    ensures SameInfo(ViewAfter(es[..m], n), v)
  {
    StepOf(es, m, n, v);
    if m == f + 1 {
      RemovalLasts(es, d, f, n, v);
      ViewIsOk(es[..f], n);
      ViewIsOk(es[..d], n);
    } else {
      MistakeLasts(es, d, f, m - 1, n, v);
      if IsChangeOf(es[m - 1], n) {
        ChangeRemembers(es, m, n, v);
      }
    }
  }

  /** The version is remembered as it is stored. */
  predicate SameInfo(w: PackageView, v: Semver) {
    && w.stored.Some? && w.local.Some? && v in w.stored.value.versions && v in w.local.value.versions
    && w.stored.value.versions[v] == w.local.value.versions[v]
  }

  lemma RemovedAgainAt(es: seq<Event>, k: nat, n: Name, v: Semver)
    requires k < |es|
    ensures (exists d: nat, f: nat :: RemovedAgain(es, d, f, k, n, v))
      <==> Lacks(es, k, n, v) && Mistaken(es[..k], n, v)
  {
    hide Forgotten, OnlyKept, Lacks, Mistaken;
    if Lacks(es, k, n, v) && Mistaken(es[..k], n, v) {
      var d, f := MistakenSince(es, k, n, v);
      assert RemovedAgain(es, d, f, k, n, v);
    }
    if d: nat, f: nat :| RemovedAgain(es, d, f, k, n, v) {
      MistakeLasts(es, d, f, k, n, v);
    }
  }

  lemma TwiceStep(es: seq<Event>, m: nat, n: Name, v: Semver)
    requires 0 < m <= |es|
    ensures FateIn(es[..m], n, v).twice
      <==> FateIn(es[..m - 1], n, v).twice || (Lacks(es, m - 1, n, v) && Mistaken(es[..m - 1], n, v))
  {
    StepOf(es, m, n, v);
  }

  /** For every history: the log deletes a version that is deleted already if and only if a removal was forgotten,
      because its batch wrote no row, and the next snapshot that did not have the version as remembered lacked it
      again. */
  lemma {:induction false} TwiceWhen(es: seq<Event>, m: nat, n: Name, v: Semver)
    requires m <= |es|
    ensures FateIn(es[..m], n, v).twice
      <==> exists d: nat, f: nat, k: nat :: k < m && RemovedAgain(es, d, f, k, n, v)
  {
    hide RemovedAgain, Lacks, Mistaken;
    if m > 0 {
      TwiceWhen(es, m - 1, n, v);
      TwiceStep(es, m, n, v);
      RemovedAgainAt(es, m - 1, n, v);
    }
  }

  // ---------- The log and the last snapshot ----------

  /** What the first snapshot that has the version says of it. */
  ghost function FirstSeen(es: seq<Event>, n: Name, v: Semver): Option<VersionData> {
    if es == [] then None
    else
      var before, e := es[..|es| - 1], es[|es| - 1];
      if FirstSeen(before, n, v) == None && IsChangeOf(e, n) && v in Snapshot(e.c.doc).1
      then Some(Snapshot(e.c.doc).1[v]) else FirstSeen(before, n, v)
  }

  /** A version is created with what its first snapshot says of it, and is remembered ever after. */
  lemma {:induction false} CreatedAsSeen(es: seq<Event>, n: Name, v: Semver)
    ensures FateIn(es, n, v).created == FirstSeen(es, n, v)
    ensures v in Remembered(es, n) <==> FirstSeen(es, n, v).Some?
  {
    if es != [] {
      var before, e := es[..|es| - 1], es[|es| - 1];
      CreatedAsSeen(before, n, v);
      ViewIsOk(before, n);
      assert before == es[..|es|][..|es| - 1] && es == es[..|es|];
      if IsChangeOf(e, n) {
        ChangeRemembers(es, |es|, n, v);
      }
    }
  }

  /** The last snapshot of the package has the version. */
  ghost predicate InLast(es: seq<Event>, n: Name, v: Semver) {
    es != [] &&
    if IsChangeOf(es[|es| - 1], n) then v in Snapshot(es[|es| - 1].c.doc).1 else InLast(es[..|es| - 1], n, v)
  }

  predicate Live(f: Fate) {
    f.created.Some? && !f.gone
  }

  /** The version is live in the log if and only if the last snapshot has it. */
  ghost predicate Agrees(es: seq<Event>, n: Name, v: Semver) {
    Live(FateIn(es, n, v)) <==> InLast(es, n, v)
  }

  /** The two changes that a builder misses: a version that comes back as it is remembered, after a snapshot without
      it; and one that is missing again after it came back, while it is still remembered as deleted. */
  ghost predicate Missed(es: seq<Event>, j: nat, n: Name, v: Semver)
    requires j < |es|
  {
    || (HasAsRemembered(es, j, n, v) && !InLast(es[..j], n, v))
    || (Lacks(es, j, n, v) && InLast(es[..j], n, v) && RememberedGone(es[..j], n, v))
  }

  ghost predicate RememberedGone(es: seq<Event>, n: Name, v: Semver) {
    v in Remembered(es, n) && Remembered(es, n)[v].deleted
  }

  /** Whether a change leaves the log's version in agreement with its snapshot, told by what the log said before. */
  lemma ChangeAgrees(es: seq<Event>, j: nat, n: Name, v: Semver)
    requires j < |es| && IsChangeOf(es[j], n)
    ensures Agrees(es[..j + 1], n, v) <==>
      && !(HasAsRemembered(es, j, n, v) && FateIn(es[..j], n, v).gone)
      && !(Lacks(es, j, n, v) && Live(FateIn(es[..j], n, v)) && RememberedGone(es[..j], n, v))
  {
    CreatedAsSeen(es[..j], n, v);
    StepOf(es, j + 1, n, v);
    assert es[..j + 1][..j] == es[..j];
  }

  /** For every history: the log always has a version live just when the last snapshot has it, if and only if no
      change is missed. */
  lemma {:induction false} AlwaysAgreesWhen(es: seq<Event>, m: nat, n: Name, v: Semver)
    requires m <= |es|
    ensures (forall j :: 0 <= j <= m ==> Agrees(es[..j], n, v)) <==> (forall j :: 0 <= j < m ==> !Missed(es, j, n, v))
  {
    hide Agrees, Missed, HasAsRemembered, Lacks;
    if m > 0 {
      AlwaysAgreesWhen(es, m - 1, n, v);
      if forall j :: 0 <= j <= m - 1 ==> Agrees(es[..j], n, v) {
        assert Agrees(es[..m - 1], n, v);
        StillAgrees(es, m - 1, n, v);
      }
    } else {
      assert Agrees([], n, v) by {
        NothingAgrees(n, v);
      }
      assert es[..0] == [];
    }
  }

  lemma NothingAgrees(n: Name, v: Semver)
    ensures Agrees([], n, v)
  {
  }

  lemma StillAgrees(es: seq<Event>, j: nat, n: Name, v: Semver)
    requires j < |es| && Agrees(es[..j], n, v)
    ensures Agrees(es[..j + 1], n, v) <==> !Missed(es, j, n, v)
  {
    CreatedAsSeen(es[..j], n, v);
    if IsChangeOf(es[j], n) {
      ChangeAgrees(es, j, n, v);
    } else {
      StepOf(es, j + 1, n, v);
      assert es[..j + 1][..j] == es[..j];
    }
  }

  // ---------- The data that is logged ----------

  /** What the last snapshot that has the version says of it. */
  ghost function LastSeen(es: seq<Event>, n: Name, v: Semver): Option<VersionData> {
    if es == [] then None
    else if IsChangeOf(es[|es| - 1], n) && v in Snapshot(es[|es| - 1].c.doc).1
    then Some(Snapshot(es[|es| - 1].c.doc).1[v]) else LastSeen(es[..|es| - 1], n, v)
  }

  /** The data that was logged last is that of the last snapshot that has the version. */
  ghost predicate LogsLast(es: seq<Event>, n: Name, v: Semver) {
    FateIn(es, n, v).logged == LastSeen(es, n, v)
  }

  /** A change that is taken for none: the version is as it is remembered, but not as the last snapshot had it. */
  ghost predicate MissedData(es: seq<Event>, j: nat, n: Name, v: Semver)
    requires j < |es|
  {
    HasAsRemembered(es, j, n, v) && LastSeen(es[..j], n, v) != Some(SnapAt(es, j)[v])
  }

  lemma StillLogsLast(es: seq<Event>, j: nat, n: Name, v: Semver)
    requires j < |es| && LogsLast(es[..j], n, v)
    ensures LogsLast(es[..j + 1], n, v) <==> !MissedData(es, j, n, v)
  {
    CreatedAsSeen(es[..j], n, v);
    StepOf(es, j + 1, n, v);
    assert es[..j + 1][..j] == es[..j];
  }

  /** For every history: the data that was logged last is always that of the last snapshot that has the version, if
      and only if no change of it is taken for none. */
  lemma {:induction false} AlwaysLogsLastWhen(es: seq<Event>, m: nat, n: Name, v: Semver)
    requires m <= |es|
    ensures (forall j :: 0 <= j <= m ==> LogsLast(es[..j], n, v))
      <==> (forall j :: 0 <= j < m ==> !MissedData(es, j, n, v))
  {
    hide LogsLast, MissedData, HasAsRemembered;
    if m > 0 {
      AlwaysLogsLastWhen(es, m - 1, n, v);
      if forall j :: 0 <= j <= m - 1 ==> LogsLast(es[..j], n, v) {
        assert LogsLast(es[..m - 1], n, v);
        StillLogsLast(es, m - 1, n, v);
      }
    } else {
      NothingLogged(n, v);
      assert es[..0] == [];
    }
  }

  lemma NothingLogged(n: Name, v: Semver)
    ensures LogsLast([], n, v) && RemembersLogged([], n, v)
  {
  }

  /** What is remembered of the version is what was logged last. */
  ghost predicate RemembersLogged(es: seq<Event>, n: Name, v: Semver) {
    v in Remembered(es, n) ==>
      FateIn(es, n, v).logged.Some? && Remembered(es, n)[v].hash == OfVersion(FateIn(es, n, v).logged.value)
  }

  /** A batch that does not write the row ends at `f`, having logged other data of the version than is stored. */
  ghost predicate ForgetsData(es: seq<Event>, f: nat, n: Name, v: Semver)
    requires f < |es|
  {
    var w := ViewAfter(es[..f], n);
    && es[f].BatchEnds? && !w.writes && w.local.Some? && w.stored.Some?
    && v in w.local.value.versions && v in w.stored.value.versions
    && w.local.value.versions[v].hash != w.stored.value.versions[v].hash
  }

  lemma StillRemembersLogged(es: seq<Event>, j: nat, n: Name, v: Semver)
    requires j < |es| && RemembersLogged(es[..j], n, v)
    ensures RemembersLogged(es[..j + 1], n, v) <==> !ForgetsData(es, j, n, v)
  {
    StepOf(es, j + 1, n, v);
    ViewIsOk(es[..j], n);
    if IsChangeOf(es[j], n) {
      ChangeRemembers(es, j + 1, n, v);
    }
  }

  /** For every history: what is remembered of a version is always what was logged last, if and only if no batch
      forgets its data. */
  lemma {:induction false} AlwaysRemembersWhen(es: seq<Event>, m: nat, n: Name, v: Semver)
    requires m <= |es|
    ensures (forall j :: 0 <= j <= m ==> RemembersLogged(es[..j], n, v))
      <==> (forall j :: 0 <= j < m ==> !ForgetsData(es, j, n, v))
  {
    hide RemembersLogged, ForgetsData;
    if m > 0 {
      AlwaysRemembersWhen(es, m - 1, n, v);
      if forall j :: 0 <= j <= m - 1 ==> RemembersLogged(es[..j], n, v) {
        assert RemembersLogged(es[..m - 1], n, v);
        StillRemembersLogged(es, m - 1, n, v);
      }
    } else {
      NothingLogged(n, v);
      assert es[..0] == [];
    }
  }

  // ---------- The package data that is logged ----------

  /** The package data of the last snapshot. */
  ghost function LastPackage(es: seq<Event>, n: Name): Option<PackageData> {
    if es == [] then None
    else if IsChangeOf(es[|es| - 1], n) then Some(Snapshot(es[|es| - 1].c.doc).0)
    else LastPackage(es[..|es| - 1], n)
  }

  /** What the log last said of the package. */
  function LoggedPackage(log: seq<Entry>, m: nat, n: Name): Option<PackageData>
    requires m <= |log|
  {
    if m == 0 then None
    else if log[m - 1].package == n && (log[m - 1].instr.CreatePackage? || log[m - 1].instr.UpdatePackage?)
    then Some(log[m - 1].instr.data) else LoggedPackage(log, m - 1, n)
  }

  function PackageOf(p: Option<PackageData>, ds: seq<Hashed>): Option<PackageData>
    decreases |ds|
  {
    if ds == [] then p
    else if ds[|ds| - 1].instr.CreatePackage? || ds[|ds| - 1].instr.UpdatePackage? then Some(ds[|ds| - 1].instr.data)
    else PackageOf(p, ds[..|ds| - 1])
  }

  lemma {:induction false} PackageConcat(p: Option<PackageData>, a: seq<Hashed>, b: seq<Hashed>)
    ensures PackageOf(p, a + b) == PackageOf(PackageOf(p, a), b)
    decreases |b|
  {
    if b == [] {
      assert a + b == a;
    } else {
      assert (a + b)[..|a + b| - 1] == a + b[..|b| - 1];
      PackageConcat(p, a, b[..|b| - 1]);
    }
  }

  lemma PackageOne(p: Option<PackageData>, d: Hashed)
    ensures PackageOf(p, [d])
         == if d.instr.CreatePackage? || d.instr.UpdatePackage? then Some(d.instr.data) else p
  {
    assert [d][..0] == [];
  }

  lemma {:induction false} VersionsLeavePackage(p: Option<PackageData>, known: map<Semver, VersionInfo>, snap: Versions,
                                                order: seq<Semver>, i: nat)
    requires i <= |order|
    ensures PackageOf(p, VersionInstrs(known, snap, order, i)) == p
  {
    if i > 0 {
      VersionsLeavePackage(p, known, snap, order, i - 1);
      PackageConcat(p, VersionInstrs(known, snap, order, i - 1), VersionInstr(known, snap, order[i - 1]));
      if VersionInstr(known, snap, order[i - 1]) != [] {
        PackageOne(p, VersionInstr(known, snap, order[i - 1])[0]);
      }
    }
  }

  /** A change logs the package data of its snapshot, unless that is what is remembered. */
  lemma PackageChanges(p: Option<PackageData>, state: Option<PackageInfo>, data: PackageData, snap: Versions,
                       order: seq<Semver>)
    requires state.Some? ==> p.Some? && state.value.hash == Some(OfPackage(p.value))
    ensures PackageOf(p, ChangeInstrs(state, data, snap, order)) == Some(data)
  {
    hide VersionInstrs;
    var vs := VersionInstrs(KnownVersions(state), snap, order, |order|);
    var update := [Hashed(UpdatePackage(data), Some(OfPackage(data)))];
    VersionsLeavePackage(p, KnownVersions(state), snap, order, |order|);
    PackageConcat(p, vs, update);
    PackageOne(p, update[0]);
    if state == None {
      var create := [Hashed(CreatePackage(WithoutLatest(data)), if data.Normal? then None else Some(OfPackage(data)))];
      var more, patch := if data.Normal? then update else [], [Hashed(PatchPackageReferences, None)];
      PackageOne(p, create[0]);
      var q := PackageOf(p, create);
      VersionsLeavePackage(q, map[], snap, order, |order|);
      PackageConcat(p, create, vs);
      PackageConcat(p, create + vs, more);
      PackageOne(q, update[0]);
      PackageConcat(p, create + vs + more, patch);
      PackageOne(PackageOf(p, create + vs + more), patch[0]);
    } else {
      assert vs + [] == vs;
    }
  }

  lemma {:induction false} PackagePrefix(log: seq<Entry>, more: seq<Entry>, m: nat, n: Name)
    requires m <= |log|
    ensures LoggedPackage(log + more, m, n) == LoggedPackage(log, m, n)
  {
    if m > 0 {
      PackagePrefix(log, more, m - 1, n);
    }
  }

  lemma {:induction false} PackageLogged(log: seq<Entry>, p: Name, seqId: int, ds: seq<Hashed>, at: nat, i: nat,
                                         n: Name)
    requires i <= |ds|
    ensures LoggedPackage(log + Tagged(p, seqId, ds, at), |log| + i, n)
         == if p == n then PackageOf(LoggedPackage(log, |log|, n), ds[..i]) else LoggedPackage(log, |log|, n)
  {
    if i > 0 {
      PackageLogged(log, p, seqId, ds, at, i - 1, n);
      assert ds[..i][..i - 1] == ds[..i - 1];
    } else {
      PackagePrefix(log, Tagged(p, seqId, ds, at), |log|, n);
    }
  }

  lemma EventLogsPackage(es: seq<Event>, e: Event, log: seq<Entry>, n: Name)
    requires var state := ViewAfter(es, n).local; state.Some? ==>
      LoggedPackage(log, |log|, n).Some? && state.value.hash == Some(OfPackage(LoggedPackage(log, |log|, n).value))
    ensures var more := EventEntries(es, e, |log|);
      LoggedPackage(log + more, |log + more|, n)
        == if IsChangeOf(e, n) then Some(Snapshot(e.c.doc).0) else LoggedPackage(log, |log|, n)
  {
    hide ChangeInstrs, Snapshot, ViewAfter;
    var p := LoggedPackage(log, |log|, n);
    if e.Changed? {
      var ds := EventInstrs(es, e);
      PackageLogged(log, e.c.name, e.c.seqId, ds, |log|, |ds|, n);
      assert ds[..|ds|] == ds;
      if IsChangeOf(e, n) {
        var (data, snap) := Snapshot(e.c.doc);
        PackageChanges(p, ViewAfter(es, n).local, data, snap, e.order);
      } else {
        assert e.c.name != n || (ds == [] && PackageOf(p, []) == p);
      }
    } else {
      assert log + [] == log;
    }
  }

  lemma {:induction false} RemembersPackage(es: seq<Event>, n: Name)
    ensures ViewAfter(es, n).local.Some? <==> LastPackage(es, n).Some?
    ensures ViewAfter(es, n).local.Some? ==>
      ViewAfter(es, n).local.value.hash == Some(OfPackage(LastPackage(es, n).value))
  {
    if es != [] {
      RemembersPackage(es[..|es| - 1], n);
      ViewIsOk(es[..|es| - 1], n);
    }
  }

  /** For every history: the package data that was logged last, with the latest version, is that of the last
      snapshot. */
  lemma {:induction false} LogsLastPackage(es: seq<Event>, n: Name)
    ensures LoggedPackage(LogAfter(es), |LogAfter(es)|, n) == LastPackage(es, n)
  {
    hide EventEntries, Snapshot, ViewAfter, LoggedPackage;
    if es != [] {
      var before, e := es[..|es| - 1], es[|es| - 1];
      LogsLastPackage(before, n);
      RemembersPackage(before, n);
      EventLogsPackage(before, e, LogAfter(before), n);
    } else {
      NoPackageLogged(n);
    }
  }

  lemma NoPackageLogged(n: Name)
    ensures LoggedPackage([], 0, n) == None
  {
  }

  // ---------- References ----------

  predicate HasPatch(ds: seq<Hashed>) {
    exists i :: 0 <= i < |ds| && ds[i].instr.PatchPackageReferences?
  }

  /** The first `m` entries patch the references to the package. */
  predicate PatchesRefs(log: seq<Entry>, m: nat, n: Name)
    requires m <= |log|
  {
    exists i :: 0 <= i < m && log[i].package == n && log[i].instr.PatchPackageReferences?
  }

  lemma PatchLogged(log: seq<Entry>, p: Name, seqId: int, ds: seq<Hashed>, at: nat, n: Name)
    ensures var more := log + Tagged(p, seqId, ds, at);
      PatchesRefs(more, |more|, n) <==> PatchesRefs(log, |log|, n) || (p == n && HasPatch(ds))
  {
    var tagged := Tagged(p, seqId, ds, at);
    var more := log + tagged;
    if i :| 0 <= i < |more| && more[i].package == n && more[i].instr.PatchPackageReferences? {
      if i < |log| {
        assert log[i] == more[i];
      } else {
        assert tagged[i - |log|] == more[i];
      }
    }
    if i :| 0 <= i < |log| && log[i].package == n && log[i].instr.PatchPackageReferences? {
      assert more[i] == log[i];
    }
    if i :| p == n && 0 <= i < |ds| && ds[i].instr.PatchPackageReferences? {
      assert more[|log| + i] == tagged[i];
    }
  }

  /** A new package is patched, after its versions. */
  lemma NewIsPatched(data: PackageData, snap: Versions, order: seq<Semver>)
    ensures HasPatch(ChangeInstrs(None, data, snap, order))
  {
    var ds := ChangeInstrs(None, data, snap, order);
    assert ds[|ds| - 1].instr.PatchPackageReferences?;
  }

  /** For every history: the references to each package that changed are patched. */
  lemma {:induction false} HistoryPatches(es: seq<Event>, n: Name)
    ensures LastPackage(es, n).Some? ==> PatchesRefs(LogAfter(es), |LogAfter(es)|, n)
  {
    hide ChangeInstrs, Snapshot, HasPatch, PatchesRefs;
    if es != [] {
      var before, e := es[..|es| - 1], es[|es| - 1];
      HistoryPatches(before, n);
      RemembersPackage(before, n);
      if e.Changed? {
        PatchLogged(LogAfter(before), e.c.name, e.c.seqId, EventInstrs(before, e), |LogAfter(before)|, n);
        if IsChangeOf(e, n) && ViewAfter(before, n).local == None {
          NewIsPatched(Snapshot(e.c.doc).0, Snapshot(e.c.doc).1, e.order);
        }
      } else {
        assert LogAfter(es) == LogAfter(before);
      }
    }
  }

  // ---------- Documents that show it ----------

  /** A document with these versions and nothing else. */
  function Plain(versions: Versions): Doc {
    NormalDoc(None, map[], 0, 0, map[], versions)
  }

  function PlainChange(seqId: int, n: Name, v: Semver, versions: Versions): Event {
    Changed(ChangeRec(seqId, n, Plain(versions)), [v])
  }

  const PLAIN_DATA := Normal(None, 0, 0, map[], map[])

  lemma PlainSnapshot(versions: Versions)
    ensures Snapshot(Plain(versions)) == (PLAIN_DATA, versions)
  {
    var none: Times := map[];
    assert none - versions.Keys == none;
  }

  /** What a plain change leads to. */
  lemma PlainStep(es: seq<Event>, seqId: int, n: Name, v: Semver, versions: Versions)
    requires Ordered(es) && !Ignored(n) && versions.Keys <= {v} && Remembered(es, n).Keys <= {v}
    requires v in Remembered(es, n) || v in versions
    ensures var next := es + [PlainChange(seqId, n, v, versions)];
      && Ordered(next) && next[..|es|] == es
      && Remembered(next, n) == map[v := FinalVersion(Remembered(es, n), versions, v)]
      && FateIn(next, n, v) == FateChange(FateIn(es, n, v), Remembered(es, n), versions, v)
      && (InLast(next, n, v) <==> v in versions)
      && ViewAfter(next, n) == PackageView(ViewAfter(es, n).stored,
           Some(PackageInfo(Some(OfPackage(PLAIN_DATA)), Remembered(next, n))),
           ViewAfter(es, n).writes || NeedsPlain(ViewAfter(es, n).local, v, versions))
  {
    var e := PlainChange(seqId, n, v, versions);
    assert (es + [e])[..|es|] == es;
    assert v in e.order;
    PlainSnapshot(versions);
  }

  predicate NeedsPlain(local: Option<PackageInfo>, v: Semver, versions: Versions) {
    local == None || local.value.hash != Some(OfPackage(PLAIN_DATA)) || (v in versions && v !in local.value.versions)
  }

  lemma EndStep(es: seq<Event>, n: Name, v: Semver)
    requires Ordered(es)
    ensures var next, w := es + [BatchEnds], ViewAfter(es, n);
      && Ordered(next) && next[..|es|] == es && FateIn(next, n, v) == FateIn(es, n, v)
      && ViewAfter(next, n)
         == if w.writes then PackageView(w.local, w.local, false) else PackageView(w.stored, w.stored, false)
  {
    assert (es + [BatchEnds])[..|es|] == es;
  }

  /** Three documents in three batches: with the version, without it, without it. */
  function TwiceHistory(n: Name, v: Semver, d: VersionData): seq<Event> {
    [PlainChange(1, n, v, map[v := d]), BatchEnds, PlainChange(2, n, v, map[]), BatchEnds,
     PlainChange(3, n, v, map[]), BatchEnds]
  }

  /** What the first `m` of these events lead to. */
  lemma TwiceStates(n: Name, v: Semver, d: VersionData)
    requires !Ignored(n)
    ensures var es := TwiceHistory(n, v, d);
      && (forall m :: 0 <= m <= 6 ==> Ordered(es[..m]))
      && Remembered(es[..0], n) == map[]
      && Remembered(es[..2], n) == map[v := VersionInfo(OfVersion(d), false)]
      && Remembered(es[..4], n) == map[v := VersionInfo(OfVersion(d), false)]
      && FateIn(es, n, v) == Fate(Some(d), Some(d), true, true)
  {
    hide Converged, ViewStep, OrderFits, Visits;
    var es := TwiceHistory(n, v, d);
    var a: seq<Event> := [];
    var b := a + [PlainChange(1, n, v, map[v := d])];
    PlainStep(a, 1, n, v, map[v := d]);
    EndStep(b, n, v);
    var c := b + [BatchEnds];
    var c' := c + [PlainChange(2, n, v, map[])];
    PlainStep(c, 2, n, v, map[]);
    EndStep(c', n, v);
    var e := c' + [BatchEnds];
    assert Remembered(e, n) == map[v := VersionInfo(OfVersion(d), false)];
    PlainStep(e, 3, n, v, map[]);
    var f := e + [PlainChange(3, n, v, map[])];
    EndStep(f, n, v);
    assert es[..0] == a && es[..1] == b && es[..2] == c && es[..3] == c' && es[..4] == e && es[..5] == f;
    assert es[..6] == f + [BatchEnds] && es[..6] == es;
  }

  /** The log deletes the version twice. */
  lemma DeletedTwice(n: Name, v: Semver, d: VersionData)
    requires !Ignored(n)
    ensures Ordered(TwiceHistory(n, v, d)) && FateIn(TwiceHistory(n, v, d), n, v) == Fate(Some(d), Some(d), true, true)
  {
    TwiceStates(n, v, d);
    assert TwiceHistory(n, v, d)[..6] == TwiceHistory(n, v, d);
  }

  /** Without the version and with it again, as it was: the log leaves it deleted. */
  lemma ReturnMissed(n: Name, v: Semver, d: VersionData)
    requires !Ignored(n)
    ensures var es := [PlainChange(1, n, v, map[v := d]), PlainChange(2, n, v, map[]),
                       PlainChange(3, n, v, map[v := d])];
      Ordered(es) && InLast(es, n, v) && !Live(FateIn(es, n, v))
  {
    var a: seq<Event> := [];
    var b := a + [PlainChange(1, n, v, map[v := d])];
    PlainStep(a, 1, n, v, map[v := d]);
    var c := b + [PlainChange(2, n, v, map[])];
    PlainStep(b, 2, n, v, map[]);
    PlainStep(c, 3, n, v, map[v := d]);
  }

  /** Without the version, with it in another form, and without it again: the log leaves it live. */
  lemma RemovalMissed(n: Name, v: Semver, d: VersionData, d': VersionData)
    requires !Ignored(n) && d != d'
    ensures var es := [PlainChange(1, n, v, map[v := d]), PlainChange(2, n, v, map[]),
                       PlainChange(3, n, v, map[v := d']), PlainChange(4, n, v, map[])];
      Ordered(es) && !InLast(es, n, v) && Live(FateIn(es, n, v))
  {
    var a: seq<Event> := [];
    var b := a + [PlainChange(1, n, v, map[v := d])];
    PlainStep(a, 1, n, v, map[v := d]);
    var c := b + [PlainChange(2, n, v, map[])];
    PlainStep(b, 2, n, v, map[]);
    PlainStep(c, 3, n, v, map[v := d']);
    var e := c + [PlainChange(3, n, v, map[v := d'])];
    PlainStep(e, 4, n, v, map[]);
    assert e + [PlainChange(4, n, v, map[])]
      == [PlainChange(1, n, v, map[v := d]), PlainChange(2, n, v, map[]), PlainChange(3, n, v, map[v := d']),
          PlainChange(4, n, v, map[])];
  }

  /** With the version, with it in another form, and with it as before, in three batches: the log keeps the other
      form. */
  lemma DataMissed(n: Name, v: Semver, d: VersionData, d': VersionData)
    requires !Ignored(n) && d != d'
    ensures var es := [PlainChange(1, n, v, map[v := d]), BatchEnds, PlainChange(2, n, v, map[v := d']), BatchEnds,
                       PlainChange(3, n, v, map[v := d])];
      Ordered(es) && LastSeen(es, n, v) == Some(d) && FateIn(es, n, v).logged == Some(d')
  {
    hide Converged, ViewStep, OrderFits, Visits;
    var a: seq<Event> := [];
    var b := a + [PlainChange(1, n, v, map[v := d])];
    PlainStep(a, 1, n, v, map[v := d]);
    EndStep(b, n, v);
    var c := b + [BatchEnds];
    var c' := c + [PlainChange(2, n, v, map[v := d'])];
    PlainStep(c, 2, n, v, map[v := d']);
    EndStep(c', n, v);
    var e := c' + [BatchEnds];
    assert Remembered(e, n) == map[v := VersionInfo(OfVersion(d), false)];
    PlainStep(e, 3, n, v, map[v := d]);
    var f := e + [PlainChange(3, n, v, map[v := d])];
    assert f == [PlainChange(1, n, v, map[v := d]), BatchEnds, PlainChange(2, n, v, map[v := d']), BatchEnds,
                 PlainChange(3, n, v, map[v := d])];
    PlainSnapshot(map[v := d]);
    assert f[..|f| - 1] == e;
  }
}
