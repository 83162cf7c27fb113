/** The cached accessor of the relational tables: what it has cached or stored is what direct writes would have stored
    (relational_db_builder/src/relational_db_accessor.rs). */
module RelationalCache {
  import opened Optional
  import opened RelationalModel

  datatype DependencyState = DependencyState(id: Id, counts: Counts)

  type DepStates = map<Digest, DependencyState>

  datatype CachedPackage = CachedPackage(id: Id, row: Package)

  // ---------- The write-back cache of dependency counts ----------

  /** The table as it would be if the dirty counts were written. */
  function Overlay(t: DepTable, states: DepStates, dirty: set<Digest>): (r: DepTable)
    ensures |r.rows| == |t.rows| && r.ids == t.ids
    ensures forall i :: 0 <= i < |t.rows| ==> r.rows[i] == OverlayRow(t.rows[i], states, dirty)
  {
    DepTable(seq(|t.rows|, i requires 0 <= i < |t.rows| => OverlayRow(t.rows[i], states, dirty)), t.ids)
  }

  function OverlayRow(d: Dependency, states: DepStates, dirty: set<Digest>): Dependency {
    if d.Hash() in dirty && d.Hash() in states then d.(counts := states[d.Hash()].counts) else d
  }

  /** Cached ids are right, dirty digests are cached, and clean counts are those of the row. */
  ghost predicate DepCacheOk(t: DepTable, states: DepStates, dirty: set<Digest>)
    requires DepTableOk(t)
  {
    && dirty <= states.Keys
    && (forall h :: h in states ==> h in t.ids && states[h].id == t.ids[h])
    && (forall h :: h in states && h !in dirty ==> states[h].counts == t.rows[t.ids[h]].counts)
  }

  lemma OverlayOk(t: DepTable, states: DepStates, dirty: set<Digest>)
    requires DepTableOk(t)
    ensures DepTableOk(Overlay(t, states, dirty))
  {
  }

  /** A hit: counting in memory is counting in the table. */
  lemma HitRefines(t: DepTable, states: DepStates, dirty: set<Digest>, d: Dependency)
    requires DepTableOk(t) && DepCacheOk(t, states, dirty) && d.Hash() in states
    ensures var next := states[d.Hash() := states[d.Hash()].(counts := Plus(states[d.Hash()].counts, d.counts))];
      DepCacheOk(t, next, dirty + {d.Hash()})
    ensures var next := states[d.Hash() := states[d.Hash()].(counts := Plus(states[d.Hash()].counts, d.counts))];
      DepTableOk(Overlay(t, states, dirty))
      && Upsert(Overlay(t, states, dirty), d) == (Overlay(t, next, dirty + {d.Hash()}), states[d.Hash()].id)
  {
    var h := d.Hash();
    var next := states[h := states[h].(counts := Plus(states[h].counts, d.counts))];
    OverlayOk(t, states, dirty);
    assert Upsert(Overlay(t, states, dirty), d).0.rows == Overlay(t, next, dirty + {h}).rows;
  }

  /** A miss: the row that is inserted or counted in the table is not dirty. */
  lemma MissRefines(t: DepTable, states: DepStates, dirty: set<Digest>, d: Dependency)
    requires DepTableOk(t) && DepCacheOk(t, states, dirty) && d.Hash() !in states
    ensures var (u, id) := Upsert(t, d);
      && DepTableOk(u) && id < |u.rows| && DepTableOk(Overlay(t, states, dirty))
      && Upsert(Overlay(t, states, dirty), d) == (Overlay(u, states, dirty), id)
  {
    UpsertOk(t, d);
    OverlayOk(t, states, dirty);
    var u := Upsert(t, d).0;
    assert Upsert(Overlay(t, states, dirty), d).0.rows == Overlay(u, states, dirty).rows;
  }

  lemma MissCaches(t: DepTable, states: DepStates, dirty: set<Digest>, d: Dependency)
    requires DepTableOk(t) && DepCacheOk(t, states, dirty) && d.Hash() !in states
    ensures var (u, id) := Upsert(t, d);
      DepTableOk(u) && DepCacheOk(u, states[d.Hash() := DependencyState(id, u.rows[id].counts)], dirty)
    ensures var (u, id) := Upsert(t, d);
      Overlay(u, states[d.Hash() := DependencyState(id, u.rows[id].counts)], dirty) == Overlay(u, states, dirty)
  {
    hide Overlay, Upsert, DepTableOk, DepCacheOk;
    UpsertOk(t, d);
    MissStays(t, states, dirty, d);
    CleanHidden(Upsert(t, d).0, states, dirty, d.Hash(),
                DependencyState(Upsert(t, d).1, Upsert(t, d).0.rows[Upsert(t, d).1].counts));
  }

  lemma MissStays(t: DepTable, states: DepStates, dirty: set<Digest>, d: Dependency)
    requires DepTableOk(t) && DepCacheOk(t, states, dirty) && d.Hash() !in states
    ensures var (u, id) := Upsert(t, d);
      && DepTableOk(u) && DepCacheOk(u, states[d.Hash() := DependencyState(id, u.rows[id].counts)], dirty)
      && d.Hash() !in dirty
  {
    UpsertOk(t, d);
  }

  lemma CleanHidden(t: DepTable, states: DepStates, dirty: set<Digest>, h: Digest, state: DependencyState)
    requires h !in dirty
    ensures Overlay(t, states[h := state], dirty) == Overlay(t, states, dirty)
  {
    assert forall i :: 0 <= i < |t.rows| ==>
      OverlayRow(t.rows[i], states[h := state], dirty) == OverlayRow(t.rows[i], states, dirty);
  }

  /** `set_dependency_counts`. */
  function SetCounts(t: DepTable, id: Id, counts: Counts): DepTable
    requires id < |t.rows|
  {
    t.(rows := t.rows[id := t.rows[id].(counts := counts)])
  }

  /** Writing a cached row back leaves it clean and changes nothing that a reader of the overlay sees. */
  lemma WriteBackRefines(t: DepTable, states: DepStates, dirty: set<Digest>, h: Digest)
    requires DepTableOk(t) && DepCacheOk(t, states, dirty) && h in dirty
    ensures var u := SetCounts(t, states[h].id, states[h].counts);
      && DepTableOk(u) && DepCacheOk(u, states, dirty) && u.rows[u.ids[h]].counts == states[h].counts
      && Overlay(u, states, dirty - {h}) == Overlay(t, states, dirty)
      && Overlay(u, states, dirty) == Overlay(t, states, dirty)
  {
    var u := SetCounts(t, states[h].id, states[h].counts);
    assert Overlay(u, states, dirty).rows == Overlay(t, states, dirty).rows;
    assert Overlay(u, states, dirty - {h}).rows == Overlay(t, states, dirty).rows;
  }

  /** A clean entry may be dropped. */
  lemma DropClean(t: DepTable, states: DepStates, dirty: set<Digest>, h: Digest)
    requires DepTableOk(t) && DepCacheOk(t, states, dirty) && h !in dirty
    ensures DepCacheOk(t, states - {h}, dirty) && Overlay(t, states - {h}, dirty) == Overlay(t, states, dirty)
  {
    assert Overlay(t, states - {h}, dirty).rows == Overlay(t, states, dirty).rows;
  }

  /** Evicting an entry, and writing it back if it is dirty, changes nothing that a reader of the overlay sees. */
  lemma EvictRefines(t: DepTable, states: DepStates, dirty: set<Digest>, h: Digest)
    requires DepTableOk(t) && DepCacheOk(t, states, dirty) && h in states
    ensures var u := if h in dirty then SetCounts(t, states[h].id, states[h].counts) else t;
      && DepTableOk(u) && DepCacheOk(u, states - {h}, dirty - {h})
      && Overlay(u, states - {h}, dirty - {h}) == Overlay(t, states, dirty)
  {
    if h in dirty {
      WriteBackRefines(t, states, dirty, h);
      var u := SetCounts(t, states[h].id, states[h].counts);
      assert DepCacheOk(u, states, dirty - {h});
      hide Overlay, DepTableOk, SetCounts;
      DropClean(u, states, dirty - {h}, h);
    } else {
      hide Overlay, DepTableOk;
      assert dirty - {h} == dirty;
      DropClean(t, states, dirty, h);
    }
  }

  /** Once every dirty row is written, nothing is dirty. */
  lemma AllWritten(t: DepTable, states: DepStates, dirty: set<Digest>)
    requires DepTableOk(t) && DepCacheOk(t, states, dirty)
    requires forall h :: h in dirty ==> t.rows[t.ids[h]].counts == states[h].counts
    ensures DepCacheOk(t, states, {}) && Overlay(t, states, dirty) == t == Overlay(t, states, {})
  {
    assert Overlay(t, states, dirty).rows == t.rows;
    assert Overlay(t, states, {}).rows == t.rows;
  }
}
