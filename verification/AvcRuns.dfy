/** Every run of the builder is sound, and a clone that fast-forwards along its chain gets exactly its bytes. */
module AvcRuns {
  import opened Optional
  import opened AvcCore
  import opened AvcSplit
  import opened AvcPack
  import opened AvcApply
  import opened AvcCommit
  import opened AvcBuildProof
  import opened AvcBuildTheorem
  import opened AvcHistory

  // ---------- Uploading later gives the same blobs ----------

  /** Files only grow. */
  ghost predicate Grows(older: Files, files: Files) {
    forall p :: p in older ==> p in files && |older[p]| <= |files[p]| && older[p] == files[p][..|older[p]|]
  }

  predicate SourceOk(s: Source, files: Files) {
    s.path in files && 0 <= s.offset && 0 <= s.num && s.offset + s.num <= |files[s.path]|
  }

  predicate OpOk(op: Op, files: Files) {
    op.ConcatenatingAdd? ==> forall s :: s in op.sources ==> SourceOk(s, files)
  }

  lemma {:induction false} ContentStable(sources: seq<Source>, older: Files, files: Files)
    requires Grows(older, files) && forall s :: s in sources ==> SourceOk(s, older)
    ensures Content(sources, older) == Content(sources, files)
  {
    if sources != [] {
      var s := sources[|sources| - 1];
      ContentStable(sources[..|sources| - 1], older, files);
      assert s in sources;
      assert files[s.path][..|older[s.path]|][s.offset..s.offset + s.num] == files[s.path][s.offset..s.offset + s.num];
    }
  }

  lemma {:induction false} UploadStable(ops: seq<Op>, older: Files, files: Files)
    requires Grows(older, files) && forall op :: op in ops ==> OpOk(op, older)
    ensures Upload(ops, older) == Upload(ops, files)
  {
    if ops != [] {
      var op := ops[|ops| - 1];
      UploadStable(ops[..|ops| - 1], older, files);
      assert op in ops;
      if op.ConcatenatingAdd? {
        ContentStable(op.sources, older, files);
      }
    }
  }

  lemma {:induction false} PackedOpsOk(bins: Bins, id: CommitId, blob: nat, files: Files)
    requires Readable(Flatten(bins), files)
    ensures forall op :: op in AllOps(bins, id, blob) ==> OpOk(op, files)
  {
    if bins.Bins? {
      ReadableParts(bins, files);
      PackedOpsOk(bins.closed, id, blob, files);
      BinSourcesOk(bins.open, files);
    }
  }

  lemma {:induction false} BinSourcesOk(bin: Bin, files: Files)
    requires Readable(Items(bin), files)
    ensures forall s :: s in SourcesOf(bin) ==> SourceOk(s, files)
  {
    if bin.Put? {
      assert bin.last in Items(bin);
      BinSourcesOk(bin.rest, files);
    }
  }

  lemma CreateOpsOk(creates: seq<Staged>, id: CommitId, files: Files)
    requires Readable(creates, files)
    ensures forall op :: op in CreateOps(creates, id) ==> OpOk(op, files)
  {
    forall op | op in CreateOps(creates, id) ensures OpOk(op, files) {
      var i :| 0 <= i < |creates| && CreateOps(creates, id)[i] == op;
      assert creates[i] in creates;
    }
  }

  /** The operations of a commit may be carried out at any later time: files that have grown give the same blobs. */
  lemma CommitUploadStable(staged: seq<Staged>, sizes: Sizes, older: Files, files: Files, id: CommitId, maxSize: nat)
    requires StagedOk(staged, sizes, older) && AllNonNegative(staged) && maxSize > 0 && Grows(older, files)
    ensures Upload(CommitOps(staged, id, maxSize), older) == Upload(CommitOps(staged, id, maxSize), files)
  {
    hide Backed, Readable, StagedOk, OpOk;
    var creates := TrimmedCreates(staged, maxSize);
    PartsReadable(staged, sizes, older, maxSize);
    AppendRowsAreChunks(staged, id, maxSize);
    PackedOpsOk(Pack(Chunks(staged, maxSize), maxSize), id, |creates|, older);
    CreateOpsOk(creates, id, older);
    UploadStable(CommitOps(staged, id, maxSize), older, files);
  }

  // ---------- Uploads name blobs of their own commit ----------

  predicate OpOf(op: Op, id: CommitId) {
    op.ConcatenatingAdd? ==> op.blob.commit == id
  }

  lemma {:induction false} UploadNames(ops: seq<Op>, id: CommitId, files: Files)
    requires forall op :: op in ops ==> OpOf(op, id)
    ensures forall b :: b in Upload(ops, files) ==> b.commit == id
  {
    if ops != [] {
      assert ops[|ops| - 1] in ops;
      UploadNames(ops[..|ops| - 1], id, files);
    }
  }

  lemma {:induction false} PackedOpsOf(bins: Bins, id: CommitId, blob: nat)
    ensures forall op :: op in AllOps(bins, id, blob) ==> OpOf(op, id)
  {
    if bins.Bins? {
      PackedOpsOf(bins.closed, id, blob);
    }
  }

  lemma CommitUploadNames(staged: seq<Staged>, files: Files, id: CommitId, maxSize: nat)
    requires maxSize > 0
    ensures forall b :: b in Upload(CommitOps(staged, id, maxSize), files) ==> b.commit == id
  {
    PackedOpsOf(Pack(Chunks(staged, maxSize), maxSize), id, |TrimmedCreates(staged, maxSize)|);
    UploadNames(CommitOps(staged, id, maxSize), id, files);
  }

  // ---------- A built commit ----------

  lemma KeyedConcat(a: seq<Row>, b: seq<Row>)
    requires forall i, j :: 0 <= i < j < |a| ==> a[i].span.path != a[j].span.path
    requires BatchShape(a, b)
    ensures KeyedByBatch(a + b)
  {
    forall i, j | 0 <= i < j < |a + b|
      ensures (a + b)[i].batch <= (a + b)[j].batch
      ensures (a + b)[i].batch == (a + b)[j].batch ==> (a + b)[i].span.path != (a + b)[j].span.path
    {
      if i < |a| {
        assert a[i] in a;
        assert j < |a| ==> a[j] in a;
        assert j >= |a| ==> b[j - |a|] in b;
      }
    }
  }

  /** A built commit respects the primary key (commit, batch, path). */
  lemma CommitKeyed(staged: seq<Staged>, id: CommitId, maxSize: nat)
    requires maxSize > 0 && DistinctStaged(staged)
    ensures KeyedByBatch(CommitRows(staged, id, maxSize))
  {
    OfKindDistinct(staged, Create);
    AppendRowsAreChunks(staged, id, maxSize);
    KeyedConcat(CreateRows(TrimmedCreates(staged, maxSize), id), AppendRows(staged, id, maxSize));
  }

  lemma OrderedFits(staged: seq<Staged>, sizes: Sizes, files: Files, id: CommitId, maxSize: nat)
    requires StagedOk(staged, sizes, files) && AllNonNegative(staged) && maxSize > 0
    ensures FitsInAnyOrder(CommitRows(staged, id, maxSize), sizes)
  {
    CommitFits(staged, sizes, files, id, maxSize);
    CreatesAreNew(staged, sizes, files, id, maxSize);
    AppendRowsAreChunks(staged, id, maxSize);
    forall q | IsReadOrder(q, CommitRows(staged, id, maxSize))
      ensures Fits(SpansOf(q), sizes)
      ensures After(SpansOf(q), sizes) == After(SpansOf(CommitRows(staged, id, maxSize)), sizes)
    {
      AnyOrderFits(q, CreateRows(TrimmedCreates(staged, maxSize), id), AppendRows(staged, id, maxSize), sizes);
    }
  }

  /** A commit built from valid staged changes without negative sizes can be applied. */
  lemma BuiltApplicable(staged: seq<Staged>, sizes: Sizes, files: Files, id: CommitId, maxSize: nat)
    requires StagedOk(staged, sizes, files) && AllNonNegative(staged) && maxSize > 0
    ensures Applicable(CommitRows(staged, id, maxSize), id, sizes, Upload(CommitOps(staged, id, maxSize), files), files)
  {
    OrderedFits(staged, sizes, files, id, maxSize);
    CommitPublished(staged, sizes, files, id, maxSize);
    CommitNames(staged, sizes, files, id, maxSize);
    BlobNamesIn(CommitRows(staged, id, maxSize));
  }

  // ---------- What keeps a commit applicable ----------

  lemma ApplicableGrows(rows: seq<Row>, id: CommitId, sizes: Sizes, remote: Blobs, older: Files, files: Files)
    requires Applicable(rows, id, sizes, remote, older) && Grows(older, files)
    ensures Applicable(rows, id, sizes, remote, files)
  {
    forall r | r in rows ensures r.blob in remote && RowMatches(r, remote[r.blob], files) {
      var p, a, b := r.span.path, r.span.start, r.span.start + r.span.num;
      assert RowMatches(r, remote[r.blob], older);
      assert files[p][..|older[p]|][a..b] == files[p][a..b];
    }
  }

  /** Blobs of other commits do not matter. */
  lemma ApplicableElsewhere(rows: seq<Row>, id: CommitId, sizes: Sizes, remote: Blobs, remote': Blobs, files: Files)
    requires Applicable(rows, id, sizes, remote, files)
    requires forall b: BlobName :: b.commit == id ==>
      (b in remote <==> b in remote') && (b in remote ==> remote[b] == remote'[b])
    ensures Applicable(rows, id, sizes, remote', files)
  {
    forall r | r in rows ensures r.blob in remote' && remote'[r.blob] == remote[r.blob] {}
  }

  /** Sizes and signs up to `k` only depend on the first `k` commits. */
  lemma {:induction false} SizesKept(w: World, w': World, k: nat)
    requires k <= |w.chain| && k <= |w'.chain|
    requires forall i :: 0 <= i < k ==> w.chain[i] == w'.chain[i] && RowsAt(w, i) == RowsAt(w', i)
    ensures SizesAt(w, k) == SizesAt(w', k)
    ensures NonNegativeUpTo(w, k) <==> NonNegativeUpTo(w', k)
  {
    if k > 0 {
      SizesKept(w, w', k - 1);
    }
  }

  /** The same commits, with files that grew and more blobs of other commits. */
  lemma CommitKept(w: World, w': World, k: nat)
    requires k < |w.chain| && k < |w'.chain| && CommitSound(w, k)
    requires forall i :: 0 <= i <= k ==> w.chain[i] == w'.chain[i] && RowsAt(w, i) == RowsAt(w', i)
    requires Grows(w.files, w'.files)
    requires forall b: BlobName :: b.commit == w.chain[k] ==>
      (b in w.remote <==> b in w'.remote) && (b in w.remote ==> w.remote[b] == w'.remote[b])
    ensures CommitSound(w', k)
  {
    SizesKept(w, w', k);
    ApplicableGrows(RowsAt(w, k), w.chain[k], SizesAt(w, k), w.remote, w.files, w'.files);
    ApplicableElsewhere(RowsAt(w, k), w.chain[k], SizesAt(w, k), w.remote, w'.remote, w'.files);
  }

  predicate SizesNonNegative(sizes: Sizes) {
    forall p :: p in sizes ==> sizes[p] >= 0
  }

  lemma {:induction false} FitsNonNegative(spans: seq<Span>, sizes: Sizes)
    requires Fits(spans, sizes) && SizesNonNegative(sizes)
    ensures SizesNonNegative(After(spans, sizes))
  {
    if spans != [] {
      FitsNonNegative(spans[1..], AfterOne(spans[0], sizes));
    }
  }

  lemma {:induction false} SizesSound(w: World, k: nat)
    requires k <= |w.chain|
    requires forall i :: 0 <= i < k ==> CommitSound(w, i) && KeyedByBatch(RowsAt(w, i))
    ensures SizesNonNegative(SizesAt(w, k))
  {
    if k > 0 {
      SizesSound(w, k - 1);
      assert CommitSound(w, k - 1) && KeyedByBatch(RowsAt(w, k - 1));
      assert IsReadOrder(RowsAt(w, k - 1), RowsAt(w, k - 1));
      FitsNonNegative(SpansOf(RowsAt(w, k - 1)), SizesAt(w, k - 1));
    }
  }

  // ---------- Every event keeps the world sound ----------

  lemma GrowSound(w: World, p: Path, more: Bytes)
    requires Sound(w)
    ensures Sound(w.(files := Grown(w.files, p, more)))
  {
    var w' := w.(files := Grown(w.files, p, more));
    assert Grows(w.files, w'.files);
    forall k | 0 <= k < |w'.chain| && NonNegativeUpTo(w', k + 1) ensures CommitSound(w', k) {
      SizesKept(w, w', k + 1);
      CommitKept(w, w', k);
    }
    SizesKept(w, w', |w.chain|);
  }

  lemma RestagedSound(w: World, staged: seq<Staged>)
    requires Sound(w) && DistinctStaged(staged)
    requires NonNegativeUpTo(w, |w.chain|) ==> StagedOk(staged, SizesAt(w, |w.chain|), w.files)
    ensures Sound(w.(staged := staged))
  {
    var w' := w.(staged := staged);
    forall k | 0 <= k < |w'.chain| && NonNegativeUpTo(w', k + 1) ensures CommitSound(w', k) {
      SizesKept(w, w', k + 1);
      CommitKept(w, w', k);
    }
    SizesKept(w, w', |w.chain|);
  }

  lemma AllCommitsSound(w: World)
    requires Sound(w) && NonNegativeUpTo(w, |w.chain|)
    ensures forall i :: 0 <= i < |w.chain| ==> CommitSound(w, i)
  {
    forall i | 0 <= i < |w.chain| ensures CommitSound(w, i) {
      assert NonNegativeUpTo(w, i + 1);
    }
  }

  lemma AllRowsKeyed(w: World)
    requires TablesOk(w)
    ensures forall i :: 0 <= i < |w.chain| ==> KeyedByBatch(RowsAt(w, i)) && RowsAt(w, i) != []
  {
    forall i | 0 <= i < |w.chain| ensures KeyedByBatch(RowsAt(w, i)) && RowsAt(w, i) != [] {
      assert w.chain[i] in w.chain;
    }
  }

  lemma AddSound(w: World, p: Path, numBytes: Option<int>)
    requires Sound(w)
    ensures Sound(Adding(w, p, numBytes))
  {
    if p in w.files {
      var num := if numBytes.None? then |w.files[p]| else numBytes.value;
      if num <= |w.files[p]| {
        var committed := LookupSize(w.changes, w.chain, |w.chain|, p);
        AddKeepsDistinct(w.staged, committed, p, num);
        if NonNegativeUpTo(w, |w.chain|) {
          AllCommitsSound(w);
          AllRowsKeyed(w);
          SizesSound(w, |w.chain|);
          LookupIsChainSize(w.changes, w.chain, |w.chain|, p);
          AddKeepsStagedOk(w.staged, SizesAt(w, |w.chain|), w.files, p, num);
        }
        RestagedSound(w, AddStaged(w.staged, committed, p, num));
      }
    }
  }

  /** Rows and blobs that may be committed on top. */
  ghost predicate Committable(w: World, id: CommitId, rows: seq<Row>, blobs: Blobs) {
    && rows != [] && KeyedByBatch(rows)
    && (forall b :: b in blobs ==> b.commit == id)
    && (NonNegativeUpTo(w, |w.chain|) && RowsNonNegative(rows) ==>
          Applicable(rows, id, SizesAt(w, |w.chain|), blobs, w.files))
  }

  /** A new commit with its blobs, applicable on top unless it has a negative size. */
  lemma CommittingSound(w: World, id: CommitId, rows: seq<Row>, blobs: Blobs)
    requires Sound(w) && id !in w.changes
    requires Committable(w, id, rows, blobs)
    ensures Sound(Committing(w, id, rows, blobs))
  {
    hide CommitSound, Applicable, TablesOk, Committable;
    var w', n := Committing(w, id, rows, blobs), |w.chain|;
    CommittingTables(w, id, rows, blobs);
    SizesKept(w, w', n);
    forall k | 0 <= k < |w'.chain| && NonNegativeUpTo(w', k + 1) ensures CommitSound(w', k) {
      if k < n {
        OlderCommitSound(w, id, rows, blobs, k);
      } else {
        assert NonNegativeUpTo(w', n);
        NewCommitSound(w, id, rows, blobs);
      }
    }
  }

  lemma CommittingTables(w: World, id: CommitId, rows: seq<Row>, blobs: Blobs)
    requires Sound(w) && id !in w.changes && Committable(w, id, rows, blobs)
    ensures var w' := Committing(w, id, rows, blobs);
      TablesOk(w') && forall i :: 0 <= i < |w.chain| ==> w'.chain[i] == w.chain[i] && RowsAt(w', i) == RowsAt(w, i)
  {
    hide CommitSound, Applicable;
    assert forall i :: 0 <= i < |w.chain| ==> w.chain[i] in w.chain;
  }

  lemma OlderCommitSound(w: World, id: CommitId, rows: seq<Row>, blobs: Blobs, k: nat)
    requires Sound(w) && id !in w.changes && Committable(w, id, rows, blobs) && k < |w.chain|
    requires NonNegativeUpTo(Committing(w, id, rows, blobs), k + 1)
    ensures CommitSound(Committing(w, id, rows, blobs), k)
  {
    hide CommitSound, Applicable;
    CommittingTables(w, id, rows, blobs);
    SizesKept(w, Committing(w, id, rows, blobs), k + 1);
    assert w.chain[k] in w.chain;
    CommitKept(w, Committing(w, id, rows, blobs), k);
  }

  lemma NewCommitSound(w: World, id: CommitId, rows: seq<Row>, blobs: Blobs)
    requires Sound(w) && id !in w.changes && Committable(w, id, rows, blobs)
    requires var n, w' := |w.chain|, Committing(w, id, rows, blobs);
      TablesOk(w') && NonNegativeUpTo(w', n + 1) && NonNegativeUpTo(w, n) && SizesAt(w', n) == SizesAt(w, n)
    ensures CommitSound(Committing(w, id, rows, blobs), |w.chain|)
  {
    var w', n := Committing(w, id, rows, blobs), |w.chain|;
    assert RowsAt(w', n) == rows;
    assert NonNegativeUpTo(w', n);
    ApplicableElsewhere(rows, id, SizesAt(w, n), blobs, w'.remote, w.files);
  }

  lemma BuiltCommittable(w: World, id: CommitId, maxSize: nat)
    requires maxSize > 0 && Sound(w) && w.staged != []
    ensures Committable(w, id, CommitRows(w.staged, id, maxSize), Upload(CommitOps(w.staged, id, maxSize), w.files))
  {
    var staged := w.staged;
    CommitUploadNames(staged, w.files, id, maxSize);
    RowsNotEmpty(staged, id, maxSize);
    CommitKeyed(staged, id, maxSize);
    SignsSurvive(staged, id, maxSize);
    if NonNegativeUpTo(w, |w.chain|) && AllNonNegative(staged) {
      BuiltApplicable(staged, SizesAt(w, |w.chain|), w.files, id, maxSize);
    }
  }

  lemma CommitStepSound(w: World, id: CommitId, rows: seq<Row>, blobs: Blobs, maxSize: nat)
    requires maxSize > 0 && Sound(w) && id !in w.changes && w.staged != []
    requires rows == CommitRows(w.staged, id, maxSize) && blobs == Upload(CommitOps(w.staged, id, maxSize), w.files)
    ensures Sound(Committing(w, id, rows, blobs))
  {
    BuiltCommittable(w, id, maxSize);
    CommittingSound(w, id, rows, blobs);
  }

  lemma AbortSound(w: World)
    requires Sound(w) && w.staged == [] && w.chain != []
    ensures Sound(w.(chain := w.chain[..|w.chain| - 1]))
  {
    var w' := w.(chain := w.chain[..|w.chain| - 1]);
    assert forall i :: 0 <= i < |w'.chain| ==> w'.chain[i] == w.chain[i] && RowsAt(w', i) == RowsAt(w, i);
    assert forall c :: c in w'.chain ==> c in w.chain;
    forall k | 0 <= k < |w'.chain| && NonNegativeUpTo(w', k + 1) ensures CommitSound(w', k) {
      SizesKept(w, w', k + 1);
      CommitKept(w, w', k);
    }
  }

  lemma StepSound(w: World, e: Event, maxSize: nat)
    requires maxSize > 0 && Sound(w) && Legal(w, e)
    ensures Sound(Step(w, e, maxSize))
  {
    hide Sound;
    match e {
      case Grow(p, more) => GrowSound(w, p, more);
      case Add(p, numBytes) => AddSound(w, p, numBytes);
      case ResetStaged => RestagedSound(w, []);
      case Commit(id) => if w.staged != [] {
        CommitStepSound(w, id, CommitRows(w.staged, id, maxSize),
                        Upload(CommitOps(w.staged, id, maxSize), w.files), maxSize);
      }
      case AbortLastCommit => if w.chain != [] { AbortSound(w); }
    }
  }

  // ---------- Runs ----------

  ghost predicate LegalRun(w: World, events: seq<Event>, maxSize: nat)
    requires maxSize > 0
    decreases |events|
  {
    events != [] ==> Legal(w, events[0]) && LegalRun(Step(w, events[0], maxSize), events[1..], maxSize)
  }

  ghost function Run(w: World, events: seq<Event>, maxSize: nat): World
    requires maxSize > 0
    decreases |events|
  {
    if events == [] then w else Run(Step(w, events[0], maxSize), events[1..], maxSize)
  }

  /** Every legal history keeps the world sound. */
  lemma {:induction false} RunSound(w: World, events: seq<Event>, maxSize: nat)
    requires maxSize > 0 && Sound(w) && LegalRun(w, events, maxSize)
    ensures Sound(Run(w, events, maxSize))
    decreases |events|
  {
    if events != [] {
      StepSound(w, events[0], maxSize);
      RunSound(Step(w, events[0], maxSize), events[1..], maxSize);
    }
  }

  // ---------- Fast-forwarding a clone ----------

  /** What the database returned for each commit's rows. */
  type Orders = map<CommitId, seq<Row>>

  ghost predicate OrdersOk(w: World, orders: Orders) {
    forall k :: 0 <= k < |w.chain| ==> IsReadOrder(RowsOf(orders, w.chain[k]), RowsAt(w, k))
  }

  /** Apply the commits from position `k` of the chain on, stopping at the first failure. */
  function FastForward(chain: seq<CommitId>, k: nat, orders: Orders, fs: Fs): Option<Fs>
    requires k <= |chain|
    decreases |chain| - k
  {
    if k == |chain| then Some(fs) else
      var next := Apply(RowsOf(orders, chain[k]), fs);
      if next.None? then None else FastForward(chain, k + 1, orders, next.value)
  }

  /** The blobs of the commits from position `k` on, which is what a clone at `k` gets by pulling. */
  ghost function Pulled(w: World, k: nat): Blobs
    requires k <= |w.chain|
  {
    map b | b in w.remote && b.commit in w.chain[k..] :: w.remote[b]
  }

  /** A clone whose files are those of the first `k` commits and whose blobs are those of the others. */
  ghost predicate CloneAt(w: World, k: nat, fs: Fs)
    requires k <= |w.chain|
  {
    Holds(fs.files, SizesAt(w, k), w.files) && fs.blobs == Pulled(w, k)
  }

  lemma PulledStep(w: World, k: nat)
    requires k < |w.chain| && NoDuplicates(w.chain)
    ensures forall b: BlobName :: b.commit == w.chain[k] ==> (b in Pulled(w, k) <==> b in w.remote)
    ensures forall b :: b in Pulled(w, k + 1) <==> b in Pulled(w, k) && b.commit != w.chain[k]
  {
    assert w.chain[k..] == [w.chain[k]] + w.chain[k + 1..];
    forall i | k < i < |w.chain| ensures w.chain[i] != w.chain[k] {}
    assert w.chain[k] !in w.chain[k + 1..];
  }

  /** Consuming a commit's blobs leaves those of the later commits. */
  lemma Consume(w: World, k: nat, rows: seq<Row>)
    requires k < |w.chain| && NoDuplicates(w.chain)
    requires NamesBlobs(rows, w.chain[k], w.remote) && forall r :: r in rows ==> r.blob.commit == w.chain[k]
    ensures Pulled(w, k) - BlobNames(rows) == Pulled(w, k + 1)
  {
    PulledStep(w, k);
    BlobNamesIn(rows);
  }

  lemma SameRowsApplicable(q: seq<Row>, rows: seq<Row>, blobs: Blobs, files: Files)
    requires IsReadOrder(q, rows) && Published(rows, blobs, files) && CreatesOwnBlob(rows, blobs)
    ensures Published(q, blobs, files) && CreatesOwnBlob(q, blobs)
    ensures BlobNames(q) == BlobNames(rows)
    ensures rows != [] ==> q != []
  {
    SameElements(q, rows);
    BlobNamesIn(q);
    BlobNamesIn(rows);
    assert |multiset(q)| == |q| && |multiset(rows)| == |rows|;
  }

  lemma ApplyNext(w: World, k: nat, orders: Orders, fs: Fs)
    requires k < |w.chain| && TablesOk(w) && OrdersOk(w, orders)
    requires CommitSound(w, k) && CloneAt(w, k, fs)
    ensures Apply(RowsOf(orders, w.chain[k]), fs).Some?
    ensures CloneAt(w, k + 1, Apply(RowsOf(orders, w.chain[k]), fs).value)
  {
    var id, rows, q := w.chain[k], RowsAt(w, k), RowsOf(orders, w.chain[k]);
    PulledStep(w, k);
    AllRowsKeyed(w);
    ApplicableElsewhere(rows, id, SizesAt(w, k), w.remote, fs.blobs, w.files);
    SameRowsApplicable(q, rows, fs.blobs, w.files);
    ApplySucceeds(q, SizesAt(w, k), fs, w.files);
    Consume(w, k, rows);
  }

  /** The round trip: from any commit at which the clone is correct, fast-forwarding passes every assertion,
      makes each file equal to its committed bytes and consumes every blob, provided no committed size is negative. */
  lemma {:induction false} FastForwardSucceeds(w: World, k: nat, orders: Orders, fs: Fs)
    requires TablesOk(w) && OrdersOk(w, orders)
    requires k <= |w.chain| && CloneAt(w, k, fs)
    requires forall i :: k <= i < |w.chain| ==> CommitSound(w, i)
    ensures FastForward(w.chain, k, orders, fs).Some?
    ensures CloneAt(w, |w.chain|, FastForward(w.chain, k, orders, fs).value)
    decreases |w.chain| - k
  {
    if k < |w.chain| {
      ApplyNext(w, k, orders, fs);
      FastForwardSucceeds(w, k + 1, orders, Apply(RowsOf(orders, w.chain[k]), fs).value);
    }
  }

  lemma NegativeCommitFails(w: World, k: nat, orders: Orders, fs: Fs)
    requires OrdersOk(w, orders) && k < |w.chain| && !RowsNonNegative(RowsAt(w, k))
    ensures Apply(RowsOf(orders, w.chain[k]), fs).None?
  {
    var r :| r in RowsAt(w, k) && r.span.num < 0;
    SameElements(RowsOf(orders, w.chain[k]), RowsAt(w, k));
    NegativeRowFails(RowsOf(orders, w.chain[k]), fs);
  }

  /** A negative committed size can never be fast-forwarded over, whatever the clone holds. */
  lemma {:induction false} FastForwardFails(w: World, k: nat, bad: nat, orders: Orders, fs: Fs)
    requires OrdersOk(w, orders)
    requires k <= bad < |w.chain| && !RowsNonNegative(RowsAt(w, bad))
    ensures FastForward(w.chain, k, orders, fs).None?
    decreases |w.chain| - k
  {
    hide OrdersOk, RowsNonNegative;
    if k == bad {
      NegativeCommitFails(w, k, orders, fs);
    } else if Apply(RowsOf(orders, w.chain[k]), fs).Some? {
      FastForwardFails(w, k + 1, bad, orders, Apply(RowsOf(orders, w.chain[k]), fs).value);
    }
  }

  /** The clone has a file exactly for each committed path, with the committed bytes of the original. */
  ghost predicate Restored(w: World, files: Files, p: Path) {
    match LookupSize(w.changes, w.chain, |w.chain|, p)
    case None => p !in files
    case Some(n) => p in w.files && 0 <= n <= |w.files[p]| && p in files && files[p] == w.files[p][..n]
  }

  /** For every history: a fresh clone fast-forwards to main exactly when no commit has a negative size;
      then each path holds its committed bytes and no blob is left. */
  lemma CloneRoundTrip(events: seq<Event>, orders: Orders, maxSize: nat)
    requires maxSize > 0 && LegalRun(EMPTY, events, maxSize)
    requires OrdersOk(Run(EMPTY, events, maxSize), orders)
    ensures var w := Run(EMPTY, events, maxSize);
      var clone := FastForward(w.chain, 0, orders, Fs(map[], Pulled(w, 0)));
      && (clone.Some? <==> NonNegativeUpTo(w, |w.chain|))
      && (clone.Some? ==> clone.value.blobs == map[] && forall p :: Restored(w, clone.value.files, p))
  {
    assert Sound(EMPTY);
    RunSound(EMPTY, events, maxSize);
    SoundRoundTrip(Run(EMPTY, events, maxSize), orders);
  }

  lemma SoundRoundTrip(w: World, orders: Orders)
    requires Sound(w) && OrdersOk(w, orders)
    ensures var clone := FastForward(w.chain, 0, orders, Fs(map[], Pulled(w, 0)));
      && (clone.Some? <==> NonNegativeUpTo(w, |w.chain|))
      && (clone.Some? ==> clone.value.blobs == map[] && forall p :: Restored(w, clone.value.files, p))
  {
    var fs := Fs(map[], Pulled(w, 0));
    if NonNegativeUpTo(w, |w.chain|) {
      AllCommitsSound(w);
      AllRowsKeyed(w);
      FastForwardSucceeds(w, 0, orders, fs);
      var clone := FastForward(w.chain, 0, orders, fs).value;
      forall p ensures Restored(w, clone.files, p) {
        LookupIsChainSize(w.changes, w.chain, |w.chain|, p);
      }
    } else {
      var bad :| 0 <= bad < |w.chain| && !RowsNonNegative(RowsAt(w, bad));
      FastForwardFails(w, 0, bad, orders, fs);
    }
  }
}
