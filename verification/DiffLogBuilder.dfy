/** The diff-log builder over its state table: batches of changes, and the log that all batches write
    (diff_log_builder/src/lib.rs, postgres_db/src/diff_log/internal_diff_log_state/manager.rs). */
module DiffLogBuilder {
  import opened Optional
  import opened RelationalModel
  import opened DiffLogModel
  import opened DiffLogRuns

  // ---------- The state table ----------

  /** A row of `internal_diff_log_state`. */
  datatype Row = Row(hash: Hash, versions: map<Semver, VersionInfo>)

  type Table = map<Name, Row>

  function InfoOf(r: Row): PackageInfo {
    PackageInfo(Some(r.hash), r.versions)
  }

  function Load(table: Table, n: Name): Option<PackageInfo> {
    if n in table then Some(InfoOf(table[n])) else None
  }

  /** The stored row has the package hash and the versions of the state, though perhaps older version fields. */
  ghost predicate RowAgrees(r: Row, info: PackageInfo) {
    Some(r.hash) == info.hash && r.versions.Keys == info.versions.Keys
  }

  /** What the flush operation says about the row. */
  ghost predicate FlushFits(table: Table, n: Name, l: Local) {
    && LocalOk(l)
    && match l.flush
       case Nothing => if l.state.Some? then n in table && RowAgrees(table[n], l.state.value) else n !in table
       case CreateRow => n !in table
       case SetRow => n in table
  }

  ghost predicate BatchOk(table: Table, locals: map<Name, Local>) {
    forall n :: n in locals ==> FlushFits(table, n, locals[n])
  }

  /** The current state of a package in a batch. */
  function Current(table: Table, locals: map<Name, Local>, n: Name): Option<PackageInfo> {
    if n in locals then locals[n].state else Load(table, n)
  }

  /** The table and the batch are what the history says of each package. */
  ghost predicate Matches(es: seq<Event>, table: Table, locals: map<Name, Local>) {
    forall n :: ViewAfter(es, n)
      == PackageView(Load(table, n), Current(table, locals, n), n in locals && locals[n].flush != Nothing)
  }

  /** A change keeps the flush operation in step with the row. */
  lemma ChangeFits(table: Table, n: Name, l: Local, data: PackageData, snap: Versions)
    requires FlushFits(table, n, l)
    ensures FlushFits(table, n, Local(Some(Converged(KnownVersions(l.state), data, snap)), FlushOf(l, data, snap)))
  {
    if l.state.Some? && !NeedsRow(l.state.value, data, snap) {
      assert Converged(l.state.value.versions, data, snap).versions.Keys == l.state.value.versions.Keys;
    }
  }

  class DiffStateManager {
    var localState: map<Name, Local>

    constructor ()
      ensures localState == map[]
    {
      localState := map[];
    }

    /** `lookup_package`. */
    method LookupPackage(table: Table, n: Name) returns (r: Option<PackageInfo>)
      requires BatchOk(table, localState)
      modifies this
      ensures BatchOk(table, localState) && n in localState && localState[n].state == r
      ensures r == Current(table, old(localState), n)
      ensures forall m :: m != n ==> Current(table, localState, m) == Current(table, old(localState), m)
      ensures n in old(localState) ==> localState == old(localState)
      ensures n !in old(localState) ==> localState == old(localState)[n := Local(Load(table, n), Nothing)]
    {
      if n !in localState {
        localState := localState[n := Local(Load(table, n), Nothing)];
      }
      r := localState[n].state;
    }

    /** `apply_diff_entry`: each entry is one that the manager accepts. */
    method ApplyDiffEntry(n: Name, d: Hashed)
      requires n in localState && Apply(localState[n], d).Some?
      modifies this
      ensures localState == old(localState)[n := Apply(old(localState)[n], d).value]
    {
      localState := localState[n := Apply(localState[n], d).value];
    }

    method ApplyDiffEntries(n: Name, ds: seq<Hashed>)
      requires n in localState && ApplyAll(localState[n], ds).Some?
      modifies this
      ensures localState == old(localState)[n := ApplyAll(old(localState)[n], ds).value]
    {
      for i := 0 to |ds|
        invariant n in localState && ApplyAll(old(localState)[n], ds[..i]) == Some(localState[n])
        invariant localState == old(localState)[n := localState[n]]
      {
        assert ds[..i + 1][..i] == ds[..i];
        PrefixApplies(old(localState)[n], ds, i + 1);
        ApplyDiffEntry(n, ds[i]);
      }
      assert ds[..|ds|] == ds;
    }

    /** `flush_to_db`: new rows are inserted where there are none, rows to be set exist, and every state has a
        hash. */
    method FlushToDb(table: Table) returns (next: Table)
      requires BatchOk(table, localState)
      ensures Flushed(table, localState, next)
    {
      var todo, creates, updates: Table := localState.Keys, map[], map[];
      while todo != {}
        invariant todo <= localState.Keys
        invariant forall n :: n in creates <==> n in localState && n !in todo && localState[n].flush == CreateRow
        invariant forall n :: n in updates <==> n in localState && n !in todo && localState[n].flush == SetRow
        invariant forall n :: n in creates ==> creates[n] == RowAfter(table, localState, n)
        invariant forall n :: n in updates ==> updates[n] == RowAfter(table, localState, n)
        decreases todo
      {
        var n :| n in todo;
        var l := localState[n];
        assert FlushFits(table, n, l);
        if l.flush != Nothing {
          var row := Row(l.state.value.hash.value, l.state.value.versions);
          if l.flush == CreateRow {
            creates := creates[n := row];
          } else {
            updates := updates[n := row];
          }
        }
        todo := todo - {n};
      }
      next := table + creates + updates;
    }
  }

  /** The row of a package after a flush. */
  function RowAfter(table: Table, locals: map<Name, Local>, n: Name): Row
    requires n in table || n in locals
  {
    if n in locals && locals[n].flush != Nothing && locals[n].state.Some? && locals[n].state.value.hash.Some?
    then Row(locals[n].state.value.hash.value, locals[n].state.value.versions)
    else if n in table then table[n] else Row(OfPackage(MissingData), map[])
  }

  lemma {:induction false} PrefixApplies(l: Local, ds: seq<Hashed>, i: nat)
    requires i <= |ds| && ApplyAll(l, ds).Some?
    ensures ApplyAll(l, ds[..i]).Some?
    decreases |ds|
  {
    if i < |ds| {
      assert ds[..|ds| - 1][..i] == ds[..i];
      PrefixApplies(l, ds[..|ds| - 1], i);
    } else {
      assert ds[..i] == ds;
    }
  }

  // ---------- Batches ----------

  /** The state is that of the snapshot: its data, its versions, and all others deleted. */
  ghost predicate ConvergedTo(info: PackageInfo, data: PackageData, snap: Versions) {
    && info.hash == Some(OfPackage(data))
    && (forall v :: v in snap ==> v in info.versions && info.versions[v].hash == OfVersion(snap[v]))
    && (forall v :: v in info.versions && v !in snap ==> info.versions[v].deleted)
  }

  lemma ConvergedIs(known: map<Semver, VersionInfo>, data: PackageData, snap: Versions)
    ensures ConvergedTo(Converged(known, data, snap), data, snap)
  {
  }

  /** Instructions that make the package's row be written when the batch ends. */
  predicate WritesRow(instr: Instr) {
    instr.CreatePackage? || instr.UpdatePackage? || instr.CreateVersion?
  }

  predicate RowWritten(es: seq<Entry>, n: Name) {
    exists i :: 0 <= i < |es| && es[i].package == n && WritesRow(es[i].instr)
  }

  lemma {:induction false} FlushMeans(l: Local, ds: seq<Hashed>)
    requires ApplyAll(l, ds).Some?
    ensures ApplyAll(l, ds).value.flush != Nothing
      <==> (l.flush != Nothing || exists i :: 0 <= i < |ds| && WritesRow(ds[i].instr))
    decreases |ds|
  {
    if ds != [] {
      var rest, d := ds[..|ds| - 1], ds[|ds| - 1];
      FlushMeans(l, rest);
      if i :| 0 <= i < |ds| && WritesRow(ds[i].instr) {
        assert i < |rest| ==> rest[i] == ds[i];
      }
      if i :| 0 <= i < |rest| && WritesRow(rest[i].instr) {
        assert ds[i] == rest[i];
      }
    }
  }

  /** The flush operations are those that the new entries call for. */
  ghost predicate FlushesFor(locals: map<Name, Local>, es: seq<Entry>) {
    forall n :: (n in locals && locals[n].flush != Nothing) <==> RowWritten(es, n)
  }

  lemma FlushesGrow(locals: map<Name, Local>, es: seq<Entry>, n: Name, seqId: int, ds: seq<Hashed>, at: nat)
    requires FlushesFor(locals, es) && n in locals && ApplyAll(locals[n], ds).Some?
    ensures FlushesFor(locals[n := ApplyAll(locals[n], ds).value], es + Tagged(n, seqId, ds, at))
  {
    var tagged := Tagged(n, seqId, ds, at);
    var more, next := es + tagged, locals[n := ApplyAll(locals[n], ds).value];
    FlushMeans(locals[n], ds);
    forall m ensures (m in next && next[m].flush != Nothing) <==> RowWritten(more, m) {
      if i :| 0 <= i < |more| && more[i].package == m && WritesRow(more[i].instr) {
        if i < |es| {
          assert es[i] == more[i];
        } else {
          assert more[i] == tagged[i - |es|];
        }
      }
      if i :| 0 <= i < |es| && es[i].package == m && WritesRow(es[i].instr) {
        assert more[i] == es[i];
      }
      if i :| 0 <= i < |ds| && m == n && WritesRow(ds[i].instr) {
        assert more[|es| + i] == tagged[i];
      }
    }
  }

  /** The last snapshot of each package in the first `n` changes. */
  function LastSnapshot(cs: seq<ChangeRec>, n: nat): map<Name, (PackageData, Versions)>
    requires n <= |cs|
  {
    if n == 0 then map[]
    else if Ignored(cs[n - 1].name) then LastSnapshot(cs, n - 1)
    else LastSnapshot(cs, n - 1)[cs[n - 1].name := Snapshot(cs[n - 1].doc)]
  }

  /** Every package that changed is in the state of its last snapshot. */
  ghost predicate Followed(locals: map<Name, Local>, last: map<Name, (PackageData, Versions)>) {
    forall n :: n in last ==> HasConverged(locals, n, last[n].0, last[n].1)
  }

  ghost predicate HasConverged(locals: map<Name, Local>, n: Name, data: PackageData, snap: Versions) {
    n in locals && locals[n].state.Some? && ConvergedTo(locals[n].state.value, data, snap)
  }

  /** The row has the data and the versions of the snapshot. */
  predicate RowCovers(table: Table, n: Name, data: PackageData, snap: Versions) {
    n in table && table[n].hash == OfPackage(data) && snap.Keys <= table[n].versions.Keys
  }

  // ---------- Steps of a batch ----------

  lemma LocalFits(table: Table, locals: map<Name, Local>, n: Name)
    requires BatchOk(table, locals) && n in locals
    ensures FlushFits(table, n, locals[n]) && LocalOk(locals[n])
  {
  }

  /** Loading a package's row changes nothing. */
  lemma LookupKeeps(es: seq<Event>, table: Table, locals: map<Name, Local>, next: map<Name, Local>, n: Name,
                    entries: seq<Entry>)
    requires Matches(es, table, locals) && FlushesFor(locals, entries)
    requires n in locals ==> next == locals
    requires n !in locals ==> next == locals[n := Local(Load(table, n), Nothing)]
    ensures Matches(es, table, next) && FlushesFor(next, entries)
  {
  }

  /** Applying the instructions of a change, and logging them, keeps the batch in order. */
  lemma ChangeKeeps(entries: seq<Entry>, table: Table, locals: map<Name, Local>, n: Name, seqId: int,
                    data: PackageData, snap: Versions, ds: seq<Hashed>, at: nat)
    requires n in locals && BatchOk(table, locals) && FlushesFor(locals, entries)
    requires ApplyAll(locals[n], ds)
      == Some(Local(Some(Converged(KnownVersions(locals[n].state), data, snap)), FlushOf(locals[n], data, snap)))
    ensures var next := locals[n := ApplyAll(locals[n], ds).value];
      BatchOk(table, next) && FlushesFor(next, entries + Tagged(n, seqId, ds, at))
  {
    hide FlushesFor, FlushOf, Converged;
    ChangeFits(table, n, locals[n], data, snap);
    FlushesGrow(locals, entries, n, seqId, ds, at);
  }

  /** The history goes on with the change. */
  lemma ChangeMatches(es: seq<Event>, e: Event, table: Table, locals: map<Name, Local>, next: map<Name, Local>)
    requires e.Changed? && !Ignored(e.c.name) && e.c.name in locals && Matches(es, table, locals)
    requires var (data, snap) := Snapshot(e.c.doc);
      next == locals[e.c.name := Local(Some(Converged(KnownVersions(locals[e.c.name].state), data, snap)),
                                       FlushOf(locals[e.c.name], data, snap))]
    ensures Matches(es + [e], table, next)
  {
    hide Converged, NeedsRow;
    assert (es + [e])[..|es|] == es;
  }

  lemma IgnoredMatches(es: seq<Event>, e: Event, table: Table, locals: map<Name, Local>)
    requires e.Changed? && Ignored(e.c.name) && Matches(es, table, locals)
    ensures Matches(es + [e], table, locals)
  {
    assert (es + [e])[..|es|] == es;
  }

  /** The history and its log go on with an event. */
  lemma HistoryGrows(es: seq<Event>, e: Event)
    requires Ordered(es) && OrderFits(es, e)
    ensures Ordered(es + [e]) && LogAfter(es + [e]) == LogAfter(es) + EventEntries(es, e, |LogAfter(es)|)
  {
    assert (es + [e])[..|es|] == es;
  }

  /** What the history says of the next change. */
  lemma ChangeSays(es: seq<Event>, e: Event, state: Option<PackageInfo>)
    requires e.Changed? && !Ignored(e.c.name) && ViewAfter(es, e.c.name).local == state
    requires Visits(e.order, KnownVersions(state), Snapshot(e.c.doc).1)
    ensures OrderFits(es, e)
    ensures var (data, snap) := Snapshot(e.c.doc); EventInstrs(es, e) == ChangeInstrs(state, data, snap, e.order)
  {
  }

  lemma IgnoredSays(es: seq<Event>, c: ChangeRec)
    requires Ignored(c.name)
    ensures OrderFits(es, Changed(c, [])) && EventInstrs(es, Changed(c, [])) == []
    ensures forall at: nat :: Tagged(c.name, c.seqId, [], at) == []
  {
  }

  lemma BatchEndLogs(es: seq<Event>)
    requires Ordered(es)
    ensures Ordered(es + [BatchEnds]) && LogAfter(es + [BatchEnds]) == LogAfter(es)
  {
    HistoryGrows(es, BatchEnds);
  }

  lemma FollowedGrows(table: Table, locals: map<Name, Local>, next: map<Name, Local>, cs: seq<ChangeRec>, i: nat)
    requires i < |cs| && Followed(locals, LastSnapshot(cs, i))
    requires Ignored(cs[i].name) ==> next == locals
    requires !Ignored(cs[i].name) ==> var (data, snap) := Snapshot(cs[i].doc);
      cs[i].name in next && next[cs[i].name].state
        == Some(Converged(KnownVersions(Current(table, locals, cs[i].name)), data, snap))
    requires forall n :: n != cs[i].name && n in locals ==> n in next && next[n] == locals[n]
    ensures Followed(next, LastSnapshot(cs, i + 1))
  {
    if !Ignored(cs[i].name) {
      var (data, snap) := Snapshot(cs[i].doc);
      ConvergedIs(KnownVersions(Current(table, locals, cs[i].name)), data, snap);
    }
  }

  /** What a flush leaves in the table. */
  ghost predicate Flushed(table: Table, locals: map<Name, Local>, next: Table) {
    && next.Keys == table.Keys + (set n | n in locals && locals[n].flush != Nothing)
    && (forall n :: n in next ==> next[n] == RowAfter(table, locals, n))
  }

  /** After a flush the table alone tells what the history says. */
  lemma FlushMatches(es: seq<Event>, table: Table, locals: map<Name, Local>, next: Table)
    requires BatchOk(table, locals) && Matches(es, table, locals) && Flushed(table, locals, next)
    ensures Matches(es + [BatchEnds], next, map[])
  {
    assert (es + [BatchEnds])[..|es|] == es;
    forall n ensures ViewAfter(es + [BatchEnds], n) == PackageView(Load(next, n), Load(next, n), false) {
      if n in locals {
        assert FlushFits(table, n, locals[n]);
      }
    }
  }

  /** After a flush each row has its package's data and versions, and its whole state if an entry writes it. */
  lemma FlushFollows(table: Table, locals: map<Name, Local>, next: Table, last: map<Name, (PackageData, Versions)>,
                     entries: seq<Entry>)
    requires BatchOk(table, locals) && Flushed(table, locals, next) && Followed(locals, last)
    requires FlushesFor(locals, entries)
    ensures RowsFollow(table, next, last, entries)
  {
    hide ConvergedTo, RowWritten;
    forall n | n in last
      ensures RowCovers(next, n, last[n].0, last[n].1)
      ensures RowWritten(entries, n) ==> n in next && ConvergedTo(InfoOf(next[n]), last[n].0, last[n].1)
    {
      assert HasConverged(locals, n, last[n].0, last[n].1);
      assert FlushFits(table, n, locals[n]);
      ConvergedRow(table, locals, next, n, last[n].0, last[n].1);
    }
  }

  lemma ConvergedRow(table: Table, locals: map<Name, Local>, next: Table, n: Name, data: PackageData, snap: Versions)
    requires HasConverged(locals, n, data, snap) && FlushFits(table, n, locals[n]) && Flushed(table, locals, next)
    ensures RowCovers(next, n, data, snap)
    ensures locals[n].flush != Nothing ==> ConvergedTo(InfoOf(next[n]), data, snap)
  {
  }

  /** Each package that changed has the package data and the versions of its last snapshot; its row is exactly in the
      state of that snapshot if an entry writes the row, and is the row of before otherwise. */
  ghost predicate RowsFollow(table: Table, next: Table, last: map<Name, (PackageData, Versions)>, entries: seq<Entry>) {
    && (forall n :: n in last ==> RowCovers(next, n, last[n].0, last[n].1))
    && (forall n :: n in last && RowWritten(entries, n) ==>
         n in next && ConvergedTo(InfoOf(next[n]), last[n].0, last[n].1))
    && (forall n :: n in table && !RowWritten(entries, n) ==> n in next && next[n] == table[n])
  }

  /** A batch starts with nothing loaded. */
  lemma BatchStarts(table: Table)
    ensures BatchOk(table, map[]) && FlushesFor(map[], []) && Followed(map[], map[])
  {
  }

  class Builder {
    var table: Table
    var log: seq<Entry>

    /** All changes so far, in their batches. */
    ghost var events: seq<Event>

    /** The table and the log are those of the history. */
    ghost predicate Valid()
      reads this
    {
      Ordered(events) && log == LogAfter(events) && Matches(events, table, map[])
    }

    constructor ()
      ensures Valid() && table == map[] && log == [] && events == []
    {
      table, log, events := map[], [], [];
    }

    /** The versions to visit, each once. The program visits them in ascending order. */
    method OldAndNewVersions(known: map<Semver, VersionInfo>, snap: Versions) returns (order: seq<Semver>)
      ensures Visits(order, known, snap)
    {
      var todo := known.Keys + snap.Keys;
      order := [];
      while todo != {}
        invariant todo <= known.Keys + snap.Keys
        invariant forall v :: v in order <==> v in known.Keys + snap.Keys - todo
        invariant forall i, j :: 0 <= i < j < |order| ==> order[i] != order[j]
        decreases todo
      {
        var v :| v in todo;
        assert forall i :: 0 <= i < |order| ==> order[i] in order;
        order := order + [v];
        todo := todo - {v};
      }
    }

    /** The diff between the snapshot and what is known of the package. */
    method DiffInstrs(state: Option<PackageInfo>, data: PackageData, snap: Versions)
      returns (ds: seq<Hashed>, ghost order: seq<Semver>)
      ensures Visits(order, KnownVersions(state), snap) && ds == ChangeInstrs(state, data, snap, order)
    {
      hide Visits;
      var known := KnownVersions(state);
      var versions := OldAndNewVersions(known, snap);
      order := versions;
      var vs := [];
      for i := 0 to |versions|
        invariant vs == VersionInstrs(known, snap, versions, i)
      {
        vs := vs + VersionInstr(known, snap, versions[i]);
      }
      if state.Some? {
        ds := vs;
        if state.value.hash != Some(OfPackage(data)) {
          ds := ds + [Hashed(UpdatePackage(data), Some(OfPackage(data)))];
        } else {
          assert vs + [] == vs;
        }
      } else {
        ds := [Hashed(CreatePackage(WithoutLatest(data)), if data.Normal? then None else Some(OfPackage(data)))] + vs;
        if data.Normal? {
          ds := ds + [Hashed(UpdatePackage(data), Some(OfPackage(data)))];
        } else {
          assert ds + [] == ds;
        }
        ds := ds + [Hashed(PatchPackageReferences, None)];
      }
    }

    /** `process_change`: the instructions of the change are logged, the package's state becomes that of the snapshot,
        and the other packages are left alone. */
    method ProcessChange(manager: DiffStateManager, c: ChangeRec, entries: seq<Entry>, ghost es: seq<Event>)
      returns (more: seq<Entry>, ghost order: seq<Semver>)
      requires BatchOk(table, manager.localState) && FlushesFor(manager.localState, entries)
      requires Ordered(es) && Matches(es, table, manager.localState) && log + entries == LogAfter(es)
      modifies manager
      ensures BatchOk(table, manager.localState) && FlushesFor(manager.localState, more)
      ensures more == entries + Tagged(c.name, c.seqId, EventInstrs(es, Changed(c, order)), |log + entries|)
      ensures var next := es + [Changed(c, order)];
        Ordered(next) && Matches(next, table, manager.localState) && log + more == LogAfter(next)
      ensures Ignored(c.name) ==> manager.localState == old(manager.localState)
      ensures !Ignored(c.name) ==> var (data, snap) := Snapshot(c.doc);
        c.name in manager.localState && manager.localState[c.name].state
          == Some(Converged(KnownVersions(Current(table, old(manager.localState), c.name)), data, snap))
      ensures forall n :: n != c.name && n in old(manager.localState) ==>
        n in manager.localState && manager.localState[n] == old(manager.localState)[n]
    {
      hide BatchOk, Matches, FlushesFor, Visits, ChangeInstrs, Converged, FlushOf, OrderFits, EventInstrs, Tagged;
      order := [];
      if Ignored(c.name) {
        IgnoredSays(es, c);
        HistoryGrows(es, Changed(c, order));
        IgnoredMatches(es, Changed(c, order), table, manager.localState);
        return entries, order;
      }
      var (data, snap) := Snapshot(c.doc);
      var state := manager.LookupPackage(table, c.name);
      LookupKeeps(es, table, old(manager.localState), manager.localState, c.name, entries);
      RemembersState(es, table, manager.localState, c.name);
      var ds;
      ds, order := DiffInstrs(state, data, snap);
      ghost var e := Changed(c, order);
      ChangeSays(es, e, state);
      ghost var before, l := manager.localState, manager.localState[c.name];
      LocalFits(table, before, c.name);
      ChangeApplies(l, data, snap, order);
      ChangeKeeps(entries, table, before, c.name, c.seqId, data, snap, ds, |log + entries|);
      manager.ApplyDiffEntries(c.name, ds);
      ChangeMatches(es, e, table, before, manager.localState);
      HistoryGrows(es, e);
      more := entries + Tagged(c.name, c.seqId, ds, |log + entries|);
    }

    /** `process_changes`: no change panics. The history goes on with the changes and the end of the batch; the log
        and the table are those of the history. Each package that changed ends with the package data and the versions
        of its last snapshot; its row is exactly in the state of that snapshot if an entry of the batch writes the
        row, and is the row of before otherwise. */
    method ProcessChanges(cs: seq<ChangeRec>) returns (ghost orders: seq<seq<Semver>>)
      requires Valid()
      modifies this
      ensures Valid() && old(log) <= log
      ensures |orders| == |cs| && events == old(events) + Changes(cs, orders, |cs|) + [BatchEnds]
      ensures RowsFollow(old(table), table, LastSnapshot(cs, |cs|), log[|old(log)|..])
    {
      hide BatchOk, Matches, FlushesFor, Followed, RowsFollow, Tagged, Converged, Snapshot, Flushed, OrderFits,
        EventInstrs, EventEntries, RowAfter;
      var manager := new DiffStateManager();
      BatchStarts(table);
      var newEntries: seq<Entry> := [];
      orders := [];
      ghost var es := events;
      assert log + newEntries == log && events + Changes(cs, orders, 0) == events;
      for i := 0 to |cs|
        invariant table == old(table) && log == old(log) && fresh(manager)
        invariant |orders| == i && es == old(events) + Changes(cs, orders, i)
        invariant BatchOk(table, manager.localState) && FlushesFor(manager.localState, newEntries)
        invariant Ordered(es) && Matches(es, table, manager.localState) && log + newEntries == LogAfter(es)
        invariant Followed(manager.localState, LastSnapshot(cs, i))
      {
        ghost var before := manager.localState;
        ghost var order;
        newEntries, order := ProcessChange(manager, cs[i], newEntries, es);
        FollowedGrows(table, before, manager.localState, cs, i);
        ChangesGrow(cs, orders, order, i);
        orders, es := orders + [order], es + [Changed(cs[i], order)];
      }
      ghost var was := table;
      table := manager.FlushToDb(table);
      BatchEndLogs(es);
      FlushMatches(es, was, manager.localState, table);
      FlushFollows(was, manager.localState, table, LastSnapshot(cs, |cs|), newEntries);
      log, events := log + newEntries, es + [BatchEnds];
      assert log[|old(log)|..] == newEntries;
    }
  }

  /** The first `n` changes, as events. */
  function Changes(cs: seq<ChangeRec>, orders: seq<seq<Semver>>, n: nat): seq<Event>
    requires n <= |cs| && n <= |orders|
  {
    if n == 0 then [] else Changes(cs, orders, n - 1) + [Changed(cs[n - 1], orders[n - 1])]
  }

  lemma {:induction false} ChangesGrow(cs: seq<ChangeRec>, orders: seq<seq<Semver>>, order: seq<Semver>, n: nat)
    requires n <= |cs| && n <= |orders|
    ensures Changes(cs, orders + [order], n) == Changes(cs, orders, n)
  {
    if n > 0 {
      ChangesGrow(cs, orders, order, n - 1);
    }
  }

  lemma RemembersState(es: seq<Event>, table: Table, locals: map<Name, Local>, n: Name)
    requires Matches(es, table, locals) && n in locals
    ensures ViewAfter(es, n).local == locals[n].state
  {
  }
}
