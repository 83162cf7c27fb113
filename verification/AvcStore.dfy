/** The version store object (`Avc`): commit tables, refs, staged changes, and the two directories it works on. */
module AvcStore {
  import opened Optional
  import opened AvcCore
  import opened AvcSplit
  import opened AvcPack
  import opened AvcApply
  import opened AvcCommit
  import opened AvcBuildProof
  import opened AvcBuildTheorem
  import opened AvcHistory
  import opened AvcRuns
  import opened AvcStaging

  /** The commit at the end of the first `k` commits of a chain. */
  ghost function Tip(chain: seq<CommitId>, k: nat): Option<CommitId>
    requires k <= |chain|
  {
    if k == 0 then None else Some(chain[k - 1])
  }

  /** The commit tables hold this chain, each commit pointing to the one before it. */
  ghost predicate Chained(parents: map<CommitId, Option<CommitId>>, chain: seq<CommitId>) {
    && NoDuplicates(chain)
    && forall i: nat :: i < |chain| ==> Linked(parents, chain, i)
  }

  ghost predicate Linked(parents: map<CommitId, Option<CommitId>>, chain: seq<CommitId>, i: nat)
    requires i < |chain|
  {
    chain[i] in parents && parents[chain[i]] == Tip(chain, i)
  }

  lemma ChainExtends(parents: map<CommitId, Option<CommitId>>, chain: seq<CommitId>, id: CommitId)
    requires Chained(parents, chain) && id !in parents
    ensures Chained(parents[id := Tip(chain, |chain|)], chain + [id])
  {
    var longer, more := chain + [id], parents[id := Tip(chain, |chain|)];
    forall i: nat | i < |longer| ensures Linked(more, longer, i) {
      if i < |chain| {
        assert Linked(parents, chain, i);
      }
    }
    forall i | 0 <= i < |chain| ensures chain[i] != id {
      assert Linked(parents, chain, i);
    }
  }

  lemma ChainShortens(parents: map<CommitId, Option<CommitId>>, chain: seq<CommitId>, k: nat)
    requires Chained(parents, chain) && 0 < k <= |chain|
    ensures Chained(parents - {chain[k - 1]}, chain[..k - 1])
  {
    var shorter, fewer := chain[..k - 1], parents - {chain[k - 1]};
    forall i: nat | i < |shorter| ensures Linked(fewer, shorter, i) {
      assert Linked(parents, chain, i) && chain[i] != chain[k - 1];
    }
  }

  lemma TipInjective(chain: seq<CommitId>, i: nat, j: nat)
    requires NoDuplicates(chain) && i <= |chain| && j <= |chain| && Tip(chain, i) == Tip(chain, j)
    ensures i == j
  {
  }

  class Avc {
    const maxSize: nat

    // the global database
    var parents: map<CommitId, Option<CommitId>>
    var changes: map<CommitId, seq<Row>>
    var main: Option<CommitId>
    // the local database
    var staged: seq<Staged>
    var head: Option<CommitId>
    // the data directory and .avc/blobs
    var files: Files
    var blobs: Blobs

    /** The commits from the first one to main, and how many of them HEAD has. */
    ghost var chain: seq<CommitId>
    ghost var applied: nat

    ghost predicate Valid()
      reads this
    {
      && maxSize > 0
      && applied <= |chain|
      && Chained(parents, chain)
      && main == Tip(chain, |chain|)
      && head == Tip(chain, applied)
      && DistinctStaged(staged) && StagedAgrees(staged, changes, chain, applied)
    }

    constructor (maxSize: nat)
      requires maxSize > 0
      ensures Valid() && this.maxSize == maxSize
      ensures chain == [] && staged == [] && files == map[] && blobs == map[]
    {
      this.maxSize := maxSize;
      parents, changes, main, staged, head := map[], map[], None, [], None;
      files, blobs := map[], map[];
      chain, applied := [], 0;
    }

    /** `get_committed_file_size`: walk from HEAD to the first commit, in each commit the greatest batch. */
    method GetCommittedFileSize(p: Path) returns (size: Option<int>)
      requires Valid()
      ensures size == LookupSize(changes, chain, applied, p)
    {
      var commit := head;
      ghost var k := applied;
      while commit.Some?
        invariant 0 <= k <= applied && commit == Tip(chain, k)
        invariant LookupSize(changes, chain, applied, p) == LookupSize(changes, chain, k, p)
        decreases k
      {
        assert Linked(parents, chain, k - 1);
        var row := LatestRow(RowsOf(changes, commit.value), p);
        if row.Some? {
          return Some(row.value.span.start + row.value.span.num);
        }
        commit := parents[commit.value];
        k := k - 1;
      }
      return None;
    }

    /** `SELECT ... WHERE path = ? ORDER BY batch_id DESC`, first row. */
    static method LatestRow(rows: seq<Row>, p: Path) returns (row: Option<Row>)
      ensures row == var i := LatestIndex(rows, |rows|, p); if i.Some? then Some(rows[i.value]) else None
    {
      row := None;
      var i := 0;
      while i < |rows|
        invariant 0 <= i <= |rows|
        invariant row == var j := LatestIndex(rows, i, p); if j.Some? then Some(rows[j.value]) else None
      {
        if rows[i].span.path == p && (row.None? || row.value.batch < rows[i].batch) {
          row := Some(rows[i]);
        }
        i := i + 1;
      }
    }

    /** `add`; false when it raises. */
    method Add(p: Path, numBytes: Option<int>) returns (ok: bool)
      requires Valid()
      modifies this`staged
      ensures Valid()
      ensures ok <==> head == main && p in files && (numBytes.Some? ==> numBytes.value <= |files[p]|)
      ensures !ok ==> staged == old(staged)
      ensures ok ==> staged == AddStaged(old(staged), LookupSize(changes, chain, applied, p), p,
                                         if numBytes.None? then |files[p]| else numBytes.value)
      ensures ok ==> StagesUpTo(old(staged), staged, p, if numBytes.None? then |files[p]| else numBytes.value)
    {
      hide StagesUpTo, Chained, LookupSize, StagedAgrees;
      if head != main || p !in files {
        return false;
      }
      var num := if numBytes.None? then |files[p]| else numBytes.value;
      if num > |files[p]| {
        return false;
      }
      var committed := GetCommittedFileSize(p);
      AddAgrees(staged, changes, chain, applied, p, num);
      AddStagesUpTo(staged, changes, chain, applied, p, num);
      AddKeepsDistinct(staged, committed, p, num);
      var at := FindStaged(p);
      if at.Some? {
        var row := staged[at.value];
        StagedRowAgrees(staged, changes, chain, applied, at.value);
        // the assertions of the code
        assert committed.None? ==> row.span.kind == Create && row.span.start == 0;
        assert committed.Some? ==> row.span.kind == Append && row.span.start == committed.value;
        var more := if committed.None? then num else num - committed.value;
        staged := staged[at.value := row.(span := row.span.(num := Max(row.span.num, more)))];
      } else if committed.None? {
        staged := staged + [Staged(Span(p, Create, 0, num), p, 0)];
      } else {
        staged := staged + [Staged(Span(p, Append, committed.value, num - committed.value), p, committed.value)];
      }
      return true;
    }

    method FindStaged(p: Path) returns (at: Option<nat>)
      ensures at == StagedIndex(staged, |staged|, p)
    {
      var i := |staged|;
      while i > 0
        invariant 0 <= i <= |staged|
        invariant StagedIndex(staged, |staged|, p) == StagedIndex(staged, i, p)
      {
        i := i - 1;
        if staged[i].span.path == p {
          return Some(i);
        }
      }
      return None;
    }

    method ResetStaged()
      requires Valid()
      modifies this`staged
      ensures Valid() && staged == []
    {
      staged := [];
    }

    /** `build_git_commit` with a fresh commit digest; false when it raises. */
    method BuildGitCommit(id: CommitId, dryRun: bool) returns (ok: bool, ops: seq<Op>)
      requires Valid() && id !in parents && id !in changes
      modifies this`parents, this`changes, this`main, this`head, this`staged, this`chain, this`applied
      ensures Valid()
      ensures ok <==> old(head) == old(main)
      ensures ok ==> ops == if old(staged) == [] then [] else CommitOps(old(staged), id, maxSize) + [DatabaseAdd]
      ensures !ok || old(staged) == [] || dryRun ==>
        unchanged(`parents, `changes, `main, `head, `staged, `chain, `applied)
      ensures ok && old(staged) != [] && !dryRun ==>
        && chain == old(chain) + [id] && applied == |chain| && staged == []
        && parents == old(parents)[id := old(head)]
        && changes == old(changes)[id := CommitRows(old(staged), id, maxSize)]
    {
      hide LookupSize, CommitRows, CommitOps, StagedAgrees;
      if head != main {
        return false, [];
      }
      if staged == [] {
        return true, [];
      }
      TipInjective(chain, applied, |chain|);
      CreatesStartAt0(staged, changes, chain, applied);
      var rows;
      rows, ops := BuildChanges(staged, id, maxSize);
      if !dryRun {
        ChainExtends(parents, chain, id);
        parents := parents[id := head];
        changes := changes[id := rows];
        main, head := Some(id), Some(id);
        staged := [];
        chain := chain + [id];
        applied := |chain|;
        NothingStagedAgrees(changes, chain, applied);
      }
      return true, ops;
    }

    /** `abort_last_commit`, with nothing staged. */
    method AbortLastCommit()
      requires Valid() && staged == []
      modifies this`parents, this`changes, this`main, this`head, this`chain, this`applied
      ensures Valid()
      ensures old(head) == None ==> unchanged(`parents, `changes, `main, `head, `chain, `applied)
      ensures old(head) != None ==>
        && chain == old(chain)[..old(applied) - 1] && applied == |chain|
        && parents == old(parents) - {old(chain)[old(applied) - 1]}
        && changes == old(changes) - {old(chain)[old(applied) - 1]}
    {
      if head == None {
        return;
      }
      ChainShortens(parents, chain, applied);
      assert Linked(parents, chain, applied - 1);
      var id := head.value;
      var parent := parents[id];
      assert parent == Tip(chain, applied - 1) == Tip(chain[..applied - 1], applied - 1);
      head, main := parent, parent;
      changes := changes - {id};
      parents := parents - {id};
      chain := chain[..applied - 1];
      applied := applied - 1;
    }

    /** The planned operations, one by one; false when one of them fails. */
    method Execute(plan: seq<Io>) returns (ok: bool)
      modifies this`files, this`blobs
      ensures ok <==> Exec(plan, Fs(old(files), old(blobs))).Some?
      ensures ok ==> Some(Fs(files, blobs)) == Exec(plan, Fs(old(files), old(blobs)))
    {
      var i := 0;
      while i < |plan|
        invariant 0 <= i <= |plan|
        invariant Exec(plan, Fs(old(files), old(blobs))) == Exec(plan[i..], Fs(files, blobs))
      {
        assert plan[i..][0] == plan[i] && plan[i..][1..] == plan[i + 1..];
        match plan[i] {
          case Move(blob, dst) =>
            if blob !in blobs {
              return false;
            }
            files := files[dst := blobs[blob]];
            blobs := blobs - {blob};
          case Delete(blob) =>
            if blob !in blobs {
              return false;
            }
            blobs := blobs - {blob};
          case AppendBytes(blob, offset, num, dst, dstOffset) =>
            if dst !in files || dstOffset != |files[dst]| || blob !in blobs || offset < 0 {
              return false;
            }
            var data := ReadAt(blobs[blob], offset, num);
            if |data| != num {
              return false;
            }
            files := files[dst := files[dst] + data];
        }
        i := i + 1;
      }
      assert plan[i..] == [];
      return true;
    }

    /** `apply_commit`: plan, execute, then move HEAD; false when an assertion or a file operation fails. */
    method ApplyCommit(id: CommitId, rows: seq<Row>) returns (ok: bool)
      requires Valid() && applied < |chain| && id == chain[applied] && staged == []
      modifies this`files, this`blobs, this`head, this`applied
      ensures Valid()
      ensures ok <==> Apply(rows, Fs(old(files), old(blobs))).Some?
      ensures ok ==> Some(Fs(files, blobs)) == Apply(rows, Fs(old(files), old(blobs))) && applied == old(applied) + 1
      ensures !ok ==> head == old(head) && applied == old(applied)
    {
      if |rows| == 0 {
        return false;
      }
      var plan;
      ok, plan := PlanChanges(rows, blobs);
      if !ok {
        return false;
      }
      ok := Execute(plan);
      if ok {
        head := Some(id);
        applied := applied + 1;
      }
    }

    /** `fast_forward`; `orders` is what the database returns for each commit. False when it raises. */
    method FastForwardToMain(orders: Orders) returns (ok: bool)
      requires Valid()
      modifies this`files, this`blobs, this`head, this`applied
      ensures Valid()
      ensures ok <==> staged == [] && FastForward(chain, old(applied), orders, Fs(old(files), old(blobs))).Some?
      ensures ok ==>
        && Some(Fs(files, blobs)) == FastForward(chain, old(applied), orders, Fs(old(files), old(blobs)))
        && head == main
    {
      if staged != [] {
        return false;
      }
      var commits: seq<CommitId>, ref := [], main;
      ghost var k := |chain|;
      while ref != head
        invariant applied <= k <= |chain| && ref == Tip(chain, k)
        invariant commits == chain[k..]
        decreases k
      {
        // the code's "head is not an ancestor of main" cannot happen
        assert ref.Some? && Linked(parents, chain, k - 1);
        commits := [ref.value] + commits;
        ref := parents[ref.value];
        k := k - 1;
      }
      TipInjective(chain, k, applied);
      ok := ApplyCommits(commits, orders);
    }

    /** Applies the commits that are missing, in order. */
    method ApplyCommits(commits: seq<CommitId>, orders: Orders) returns (ok: bool)
      requires Valid() && staged == [] && commits == chain[applied..]
      modifies this`files, this`blobs, this`head, this`applied
      ensures Valid()
      ensures ok <==> FastForward(chain, old(applied), orders, Fs(old(files), old(blobs))).Some?
      ensures ok ==>
        && Some(Fs(files, blobs)) == FastForward(chain, old(applied), orders, Fs(old(files), old(blobs)))
        && head == main
    {
      hide Apply, Chained, StagedAgrees;
      var i := 0;
      while i < |commits|
        invariant 0 <= i <= |commits| && Valid() && staged == []
        invariant commits == chain[old(applied)..] && applied == old(applied) + i
        invariant FastForward(chain, old(applied), orders, Fs(old(files), old(blobs)))
               == FastForward(chain, applied, orders, Fs(files, blobs))
      {
        assert commits[i] == chain[applied];
        ok := ApplyCommit(commits[i], RowsOf(orders, commits[i]));
        if !ok {
          return false;
        }
        i := i + 1;
      }
      return true;
    }
  }
}
