/** Whole histories of the version store: any run of the builder, and a clone that fast-forwards along its chain. */
module AvcHistory {
  import opened Optional
  import opened AvcCore
  import opened AvcSplit
  import opened AvcPack
  import opened AvcApply
  import opened AvcCommit
  import opened AvcBuildProof
  import opened AvcBuildTheorem

  // ---------- Committed sizes ----------

  /** `WHERE path = ? ORDER BY batch_id DESC`: the row of the path with the greatest batch, among the first `n`. */
  function LatestIndex(rows: seq<Row>, n: nat, p: Path): (r: Option<nat>)
    requires n <= |rows|
    ensures r.Some? ==> r.value < n && rows[r.value].span.path == p
  {
    if n == 0 then None else
      var i := LatestIndex(rows, n - 1, p);
      if rows[n - 1].span.path == p && (i.None? || rows[i.value].batch < rows[n - 1].batch) then Some(n - 1) else i
  }

  /** The rows of `commit_changes` for a commit. */
  function RowsOf(changes: map<CommitId, seq<Row>>, c: CommitId): seq<Row> {
    if c in changes then changes[c] else []
  }

  /** The size that the rows of one commit give a path. */
  function SizeIn(rows: seq<Row>, p: Path): Option<int> {
    var i := LatestIndex(rows, |rows|, p);
    if i.None? then None else Some(rows[i.value].span.start + rows[i.value].span.num)
  }

  /** `get_committed_file_size` at the `k`-th commit: the end of the latest row for the path,
      in the latest commit that has one. */
  function LookupSize(changes: map<CommitId, seq<Row>>, chain: seq<CommitId>, k: nat, p: Path): Option<int>
    requires k <= |chain|
  {
    if k == 0 then None else
      var here := SizeIn(RowsOf(changes, chain[k - 1]), p);
      if here.Some? then here else LookupSize(changes, chain, k - 1, p)
  }

  /** The sizes after the first `k` commits of a chain. */
  function ChainSizes(changes: map<CommitId, seq<Row>>, chain: seq<CommitId>, k: nat): Sizes
    requires k <= |chain|
  {
    if k == 0 then map[] else
      After(SpansOf(RowsOf(changes, chain[k - 1])), ChainSizes(changes, chain, k - 1))
  }

  /** (batch, path) is the primary key of a commit's rows, which are stored in batch order. */
  ghost predicate KeyedByBatch(rows: seq<Row>) {
    forall i, j :: 0 <= i < j < |rows| ==>
      rows[i].batch <= rows[j].batch && !(rows[i].batch == rows[j].batch && rows[i].span.path == rows[j].span.path)
  }

  /** With the primary key, the row with the greatest batch is the last one. */
  lemma {:induction false} LatestIsLast(rows: seq<Row>, n: nat, p: Path)
    requires n <= |rows| && KeyedByBatch(rows)
    ensures var r := LatestIndex(rows, n, p);
      forall j :: (if r.Some? then r.value + 1 else 0) <= j < n ==> rows[j].span.path != p
  {
    if n > 0 {
      LatestIsLast(rows, n - 1, p);
    }
  }

  lemma SizeInIsAfter(rows: seq<Row>, before: Sizes, p: Path)
    requires KeyedByBatch(rows)
    ensures SizeIn(rows, p).Some? ==>
      p in After(SpansOf(rows), before) && SizeIn(rows, p) == Some(After(SpansOf(rows), before)[p])
    ensures SizeIn(rows, p).None? ==>
      (p in After(SpansOf(rows), before) <==> p in before) &&
      (p in before ==> After(SpansOf(rows), before)[p] == before[p])
  {
    var i := LatestIndex(rows, |rows|, p);
    LatestIsLast(rows, |rows|, p);
    if i.Some? {
      assert SpansOf(rows)[i.value] == rows[i.value].span;
      AfterLast(SpansOf(rows), before, i.value);
    } else {
      AfterFrame(SpansOf(rows), before, p);
    }
  }

  /** Looking a size up agrees with replaying the whole chain. */
  lemma {:induction false} LookupIsChainSize(changes: map<CommitId, seq<Row>>, chain: seq<CommitId>, k: nat, p: Path)
    requires k <= |chain|
    requires forall i :: 0 <= i < k ==> KeyedByBatch(RowsOf(changes, chain[i]))
    ensures p in ChainSizes(changes, chain, k) <==> LookupSize(changes, chain, k, p).Some?
    ensures p in ChainSizes(changes, chain, k) ==>
      LookupSize(changes, chain, k, p) == Some(ChainSizes(changes, chain, k)[p])
  {
    if k > 0 {
      LookupIsChainSize(changes, chain, k - 1, p);
      SizeInIsAfter(RowsOf(changes, chain[k - 1]), ChainSizes(changes, chain, k - 1), p);
    }
  }

  // ---------- Staging ----------

  function StagedIndex(staged: seq<Staged>, n: nat, p: Path): (r: Option<nat>)
    requires n <= |staged|
    ensures r.Some? ==> r.value < n && staged[r.value].span.path == p
    ensures r.None? ==> forall j :: 0 <= j < n ==> staged[j].span.path != p
  {
    if n == 0 then None else if staged[n - 1].span.path == p then Some(n - 1) else StagedIndex(staged, n - 1, p)
  }

  function Max(a: int, b: int): int { if a < b then b else a }

  /** The staged changes after `add` of the first `num` bytes of a file with this committed size. */
  function AddStaged(staged: seq<Staged>, committed: Option<int>, p: Path, num: int): seq<Staged> {
    var start := if committed.None? then 0 else committed.value;
    var kind := if committed.None? then Create else Append;
    var i := StagedIndex(staged, |staged|, p);
    if i.Some? then
      var row := staged[i.value];
      staged[i.value := row.(span := row.span.(num := Max(row.span.num, num - start)))]
    else
      staged + [Staged(Span(p, kind, start, num - start), p, start)]
  }

  lemma AddKeepsStagedOk(staged: seq<Staged>, sizes: Sizes, files: Files, p: Path, num: int)
    requires StagedOk(staged, sizes, files)
    requires p in files && num <= |files[p]|
    requires p in sizes ==> 0 <= sizes[p]
    ensures StagedOk(AddStaged(staged, if p in sizes then Some(sizes[p]) else None, p, num), sizes, files)
  {
    var r := AddStaged(staged, if p in sizes then Some(sizes[p]) else None, p, num);
    var i := StagedIndex(staged, |staged|, p);
    if i.Some? {
      assert staged[i.value] in staged;
      forall e | e in r ensures e == r[i.value] || e in staged {
        var j :| 0 <= j < |r| && r[j] == e;
      }
    } else {
      forall e | e in r ensures e == r[|staged|] || e in staged {}
    }
  }

  lemma AddKeepsDistinct(staged: seq<Staged>, committed: Option<int>, p: Path, num: int)
    requires DistinctStaged(staged)
    ensures DistinctStaged(AddStaged(staged, committed, p, num))
  {
  }

  // ---------- The world ----------

  /** The builder's repository with HEAD at main: the chain of commits and their rows, the staged changes,
      the data files, and everything that was ever pushed to the remote. */
  datatype World = World(chain: seq<CommitId>, changes: map<CommitId, seq<Row>>, staged: seq<Staged>,
                         files: Files, remote: Blobs)

  datatype Event =
    | Grow(path: Path, more: Bytes)
    | Add(path: Path, numBytes: Option<int>)
    | ResetStaged
    | Commit(id: CommitId)
    | AbortLastCommit

  const EMPTY := World([], map[], [], map[], map[])

  /** Commit digests are fresh, and a commit is only aborted with nothing staged. */
  predicate Legal(w: World, e: Event) {
    match e
    case Commit(id) => id !in w.changes
    case AbortLastCommit => w.staged == []
    case _ => true
  }

  /** Files can only grow. */
  function Grown(files: Files, p: Path, more: Bytes): Files {
    files[p := (if p in files then files[p] else []) + more]
  }

  /** `add` of the first `numBytes` bytes (or all) of a file; without effect when it raises. */
  function Adding(w: World, p: Path, numBytes: Option<int>): World {
    if p !in w.files then w else
      var num := if numBytes.None? then |w.files[p]| else numBytes.value;
      if num > |w.files[p]| then w
      else w.(staged := AddStaged(w.staged, LookupSize(w.changes, w.chain, |w.chain|, p), p, num))
  }

  /** `build_git_commit`, with the upload carried out. */
  function Committing(w: World, id: CommitId, rows: seq<Row>, blobs: Blobs): World {
    World(w.chain + [id], w.changes[id := rows], [], w.files, w.remote + blobs)
  }

  ghost function Step(w: World, e: Event, maxSize: nat): World
    requires maxSize > 0
  {
    match e
    case Grow(p, more) => w.(files := Grown(w.files, p, more))
    case Add(p, numBytes) => Adding(w, p, numBytes)
    case ResetStaged => w.(staged := [])
    case Commit(id) =>
      if w.staged == [] then w else
        Committing(w, id, CommitRows(w.staged, id, maxSize), Upload(CommitOps(w.staged, id, maxSize), w.files))
    case AbortLastCommit => if w.chain == [] then w else w.(chain := w.chain[..|w.chain| - 1])
  }

  function RowsAt(w: World, k: nat): seq<Row>
    requires k < |w.chain|
  {
    RowsOf(w.changes, w.chain[k])
  }

  function SizesAt(w: World, k: nat): Sizes
    requires k <= |w.chain|
  {
    ChainSizes(w.changes, w.chain, k)
  }

  /** No row of the first `k` commits has a negative size. */
  predicate NonNegativeUpTo(w: World, k: nat)
    requires k <= |w.chain|
  {
    forall i :: 0 <= i < k ==> RowsNonNegative(RowsAt(w, i))
  }

  /** In whatever order the database returns them, the rows fit and lead to the same sizes. */
  ghost predicate FitsInAnyOrder(rows: seq<Row>, sizes: Sizes) {
    forall q :: IsReadOrder(q, rows) ==>
      Fits(SpansOf(q), sizes) && After(SpansOf(q), sizes) == After(SpansOf(rows), sizes)
  }

  /** The blobs of this commit are exactly those its rows name. */
  ghost predicate NamesBlobs(rows: seq<Row>, id: CommitId, remote: Blobs) {
    forall b: BlobName :: b.commit == id ==> (b in remote <==> b in BlobNames(rows))
  }

  /** A commit that a clone can apply when it has these sizes. */
  ghost predicate Applicable(rows: seq<Row>, id: CommitId, sizes: Sizes, remote: Blobs, files: Files) {
    && FitsInAnyOrder(rows, sizes)
    && Published(rows, remote, files)
    && CreatesOwnBlob(rows, remote)
    && NamesBlobs(rows, id, remote)
    && (forall r :: r in rows ==> r.blob.commit == id)
  }

  ghost predicate CommitSound(w: World, k: nat)
    requires k < |w.chain|
  {
    Applicable(RowsAt(w, k), w.chain[k], SizesAt(w, k), w.remote, w.files)
  }

  /** Holds of the tables in any case. */
  ghost predicate TablesOk(w: World) {
    && NoDuplicates(w.chain)
    && (forall c :: c in w.chain ==> c in w.changes && w.changes[c] != [] && KeyedByBatch(w.changes[c]))
    && (forall b :: b in w.remote ==> b.commit in w.changes)
    && DistinctStaged(w.staged)
  }

  /** As long as no negative size was committed, every commit is applicable and what is staged is valid on top. */
  ghost predicate Sound(w: World) {
    && TablesOk(w)
    && (forall k :: 0 <= k < |w.chain| && NonNegativeUpTo(w, k + 1) ==> CommitSound(w, k))
    && (NonNegativeUpTo(w, |w.chain|) ==> StagedOk(w.staged, SizesAt(w, |w.chain|), w.files))
  }
}
