/** A commit built from valid staged changes does to the sizes what the staged changes say, splits nothing
    wrongly, and publishes exactly the bytes that were staged. */
module AvcBuildTheorem {
  import opened AvcCore
  import opened AvcSplit
  import opened AvcPack
  import opened AvcApply
  import opened AvcCommit
  import opened AvcBuildProof

  lemma DistinctMembers(staged: seq<Staged>)
    requires DistinctStaged(staged)
    ensures forall a, b :: a in staged && b in staged && a.span.path == b.span.path ==> a == b
  {
    forall a, b | a in staged && b in staged && a.span.path == b.span.path ensures a == b {
      var i :| 0 <= i < |staged| && staged[i] == a;
      var j :| 0 <= j < |staged| && staged[j] == b;
    }
  }

  /** The rows of the creates introduce new files, one row for a file. */
  lemma CreatesAreNew(staged: seq<Staged>, sizes: Sizes, files: Files, id: CommitId, maxSize: nat)
    requires StagedOk(staged, sizes, files) && AllNonNegative(staged)
    ensures NewFiles(CreateRows(TrimmedCreates(staged, maxSize), id), sizes)
  {
    OfKindIn(staged, Create);
    OfKindDistinct(staged, Create);
    NewFileRows(OfKind(staged, Create), TrimmedCreates(staged, maxSize), sizes, id);
  }

  lemma NewFileRows(creates: seq<Staged>, trimmed: seq<Staged>, sizes: Sizes, id: CommitId)
    requires |trimmed| == |creates| && DistinctStaged(creates)
    requires forall i :: 0 <= i < |creates| ==> trimmed[i].span.path == creates[i].span.path && trimmed[i].span.num >= 0
    requires forall c :: c in creates ==> c.span.path !in sizes
    ensures NewFiles(CreateRows(trimmed, id), sizes)
  {
    var rows := CreateRows(trimmed, id);
    assert forall i, j :: 0 <= i < j < |rows| ==> rows[i].blob != rows[j].blob;
    forall r | r in rows ensures r.span.path !in sizes && r.span.num >= 0 {
      var i :| 0 <= i < |rows| && rows[i] == r;
      assert creates[i] in creates;
    }
    forall r, x | r in rows && x in rows && r.span.path == x.span.path ensures r == x {
      var i :| 0 <= i < |rows| && rows[i] == r;
      var j :| 0 <= j < |rows| && rows[j] == x;
      assert creates[i].span.path == creates[j].span.path;
    }
  }

  /** The sizes once the creates of the commit are in. */
  ghost function CreatedSizes(staged: seq<Staged>, sizes: Sizes, id: CommitId, maxSize: nat): Sizes {
    After(SpansOf(CreateRows(TrimmedCreates(staged, maxSize), id)), sizes)
  }

  lemma CreatedSize(staged: seq<Staged>, sizes: Sizes, files: Files, id: CommitId, maxSize: nat, c: Staged)
    requires StagedOk(staged, sizes, files) && AllNonNegative(staged)
    requires c in staged && c.span.kind == Create
    ensures c.span.path in CreatedSizes(staged, sizes, id, maxSize)
    ensures CreatedSizes(staged, sizes, id, maxSize)[c.span.path] == Trim(c, maxSize).span.num
  {
    var creates := OfKind(staged, Create);
    var rows := CreateRows(TrimmedCreates(staged, maxSize), id);
    OfKindIn(staged, Create);
    CreatesAreNew(staged, sizes, files, id, maxSize);
    var i :| 0 <= i < |creates| && creates[i] == c;
    assert rows[i] in rows;
    SizeFromRow(rows, sizes, rows[i]);
  }

  lemma UncreatedSize(staged: seq<Staged>, sizes: Sizes, id: CommitId, maxSize: nat, p: Path)
    requires forall c :: c in staged && c.span.kind == Create ==> c.span.path != p
    ensures p in CreatedSizes(staged, sizes, id, maxSize) <==> p in sizes
    ensures p in sizes ==> CreatedSizes(staged, sizes, id, maxSize)[p] == sizes[p]
  {
    var creates := OfKind(staged, Create);
    var rows := CreateRows(TrimmedCreates(staged, maxSize), id);
    OfKindIn(staged, Create);
    forall i | 0 <= i < |rows| ensures SpansOf(rows)[i].path != p {
      assert creates[i] in creates;
    }
    AfterFrame(SpansOf(rows), sizes, p);
  }

  ghost function QueueOf(staged: seq<Staged>, maxSize: nat): seq<Staged> {
    OfKind(staged, Append) + SpillAll(OfKind(staged, Create), maxSize)
  }

  /** Where a queued append comes from: it was staged, or it is the rest of an oversized create. */
  lemma QueueFrom(staged: seq<Staged>, maxSize: nat, e: Staged)
    ensures e in QueueOf(staged, maxSize) <==>
      || (e in staged && e.span.kind == Append)
      || exists c :: c in staged && c.span.kind == Create && c.span.num > maxSize && e == Spill(c, maxSize)
  {
    OfKindIn(staged, Append);
    OfKindIn(staged, Create);
    SpillAllIn(OfKind(staged, Create), maxSize);
    if c :| c in staged && c.span.kind == Create && c.span.num > maxSize && e == Spill(c, maxSize) {
      assert c in OfKind(staged, Create);
      assert IsSpill(e, OfKind(staged, Create), maxSize);
    }
  }

  lemma QueueDistinct(staged: seq<Staged>, maxSize: nat)
    requires DistinctStaged(staged)
    ensures DistinctStaged(QueueOf(staged, maxSize))
  {
    var appends, spills := OfKind(staged, Append), SpillAll(OfKind(staged, Create), maxSize);
    OfKindIn(staged, Append);
    OfKindIn(staged, Create);
    OfKindDistinct(staged, Append);
    OfKindDistinct(staged, Create);
    SpillAllDistinct(OfKind(staged, Create), maxSize);
    SpillAllIn(OfKind(staged, Create), maxSize);
    DistinctMembers(staged);
    forall a, e | a in appends && e in spills ensures a.span.path != e.span.path {
      var c :| c in OfKind(staged, Create) && c.span.num > maxSize && e == Spill(c, maxSize);
    }
    var q := appends + spills;
    forall i, j | 0 <= i < j < |q| ensures q[i].span.path != q[j].span.path {
      if i < |appends| && j >= |appends| {
        assert q[i] in appends && q[j] in spills;
      }
    }
  }

  lemma QueueReady(staged: seq<Staged>, sizes: Sizes, files: Files, id: CommitId, maxSize: nat)
    requires StagedOk(staged, sizes, files) && AllNonNegative(staged) && maxSize > 0
    ensures QueueOk(QueueOf(staged, maxSize), CreatedSizes(staged, sizes, id, maxSize))
  {
    QueueDistinct(staged, maxSize);
    DistinctMembers(staged);
    forall e | e in QueueOf(staged, maxSize)
      ensures e.span.kind == Append && FitsOne(e.span, CreatedSizes(staged, sizes, id, maxSize)) && InPlace(e)
    {
      QueueFrom(staged, maxSize, e);
      if e in staged && e.span.kind == Append {
        UncreatedSize(staged, sizes, id, maxSize, e.span.path);
      } else {
        var c :| c in staged && c.span.kind == Create && c.span.num > maxSize && e == Spill(c, maxSize);
        CreatedSize(staged, sizes, files, id, maxSize, c);
      }
    }
  }

  ghost function AppendRows(staged: seq<Staged>, id: CommitId, maxSize: nat): seq<Row>
    requires maxSize > 0
  {
    AllRows(Pack(Chunks(staged, maxSize), maxSize), id, FirstAppendBatch(staged), |TrimmedCreates(staged, maxSize)|)
  }

  lemma PackedShape(bins: Bins, q: seq<Staged>, creates: seq<Row>, id: CommitId, batch: nat, blob: nat)
    requires Flatten(bins) == q && (creates != [] ==> batch > 0) && forall r :: r in creates ==> r.batch == 0
    ensures SpansOf(AllRows(bins, id, batch, blob)) == StagedSpans(q)
    ensures BatchShape(creates, AllRows(bins, id, batch, blob))
  {
    RowsInOrder(bins, id, batch, blob);
  }

  /** The packed rows are the chunks of the queue, in order, one batch each. */
  lemma AppendRowsAreChunks(staged: seq<Staged>, id: CommitId, maxSize: nat)
    requires maxSize > 0
    ensures Flatten(Pack(Chunks(staged, maxSize), maxSize)) == Chunks(staged, maxSize)
    ensures NextFit(Pack(Chunks(staged, maxSize), maxSize), maxSize)
    ensures SpansOf(AppendRows(staged, id, maxSize)) == StagedSpans(Chunks(staged, maxSize))
    ensures BatchShape(CreateRows(TrimmedCreates(staged, maxSize), id), AppendRows(staged, id, maxSize))
  {
    var bins := Pack(Chunks(staged, maxSize), maxSize);
    ScanChunks(QueueOf(staged, maxSize), maxSize);
    var q, creates := Chunks(staged, maxSize), CreateRows(TrimmedCreates(staged, maxSize), id);
    PackIsNextFit(q, |q|, maxSize);
    assert q[..|q|] == q;
    PackedShape(bins, q, creates, id, FirstAppendBatch(staged), |creates|);
  }

  lemma RowsReach(staged: seq<Staged>, sizes: Sizes, files: Files, id: CommitId, maxSize: nat)
    requires StagedOk(staged, sizes, files) && AllNonNegative(staged) && maxSize > 0
    ensures Fits(SpansOf(CommitRows(staged, id, maxSize)), sizes)
    ensures Reaches(QueueOf(staged, maxSize), CreatedSizes(staged, sizes, id, maxSize),
                    After(SpansOf(CommitRows(staged, id, maxSize)), sizes))
  {
    var creates, appends := CreateRows(TrimmedCreates(staged, maxSize), id), AppendRows(staged, id, maxSize);
    CreatesAreNew(staged, sizes, files, id, maxSize);
    CreatesFit(creates, sizes);
    QueueReady(staged, sizes, files, id, maxSize);
    ScanExact(QueueOf(staged, maxSize), CreatedSizes(staged, sizes, id, maxSize), maxSize);
    AppendRowsAreChunks(staged, id, maxSize);
    SpansConcat(creates, appends, sizes);
  }

  /** Splitting preserves meaning: the rows fit, and they lead to the sizes the staged changes ask for. */
  lemma CommitFits(staged: seq<Staged>, sizes: Sizes, files: Files, id: CommitId, maxSize: nat)
    requires StagedOk(staged, sizes, files) && AllNonNegative(staged) && maxSize > 0
    ensures Fits(SpansOf(CommitRows(staged, id, maxSize)), sizes)
    ensures After(SpansOf(CommitRows(staged, id, maxSize)), sizes) == After(StagedSpans(staged), sizes)
  {
    RowsReach(staged, sizes, files, id, maxSize);
    var final, wanted := After(SpansOf(CommitRows(staged, id, maxSize)), sizes), After(StagedSpans(staged), sizes);
    forall p ensures (p in final <==> p in wanted) && (p in final && p in wanted ==> final[p] == wanted[p]) {
      if e :| e in staged && e.span.path == p {
        StagedSize(staged, sizes, e);
        FinalSize(staged, sizes, files, id, maxSize, final, e);
      } else {
        OtherSize(staged, sizes, id, maxSize, final, p);
      }
    }
  }

  lemma OtherSize(staged: seq<Staged>, sizes: Sizes, id: CommitId, maxSize: nat, final: Sizes, p: Path)
    requires Reaches(QueueOf(staged, maxSize), CreatedSizes(staged, sizes, id, maxSize), final)
    requires forall e :: e in staged ==> e.span.path != p
    ensures p in final <==> p in After(StagedSpans(staged), sizes)
    ensures p in final && p in After(StagedSpans(staged), sizes) ==> final[p] == After(StagedSpans(staged), sizes)[p]
  {
    UnstagedSize(staged, sizes, p);
    UncreatedSize(staged, sizes, id, maxSize, p);
    forall e | e in QueueOf(staged, maxSize) ensures e.span.path != p {
      QueueFrom(staged, maxSize, e);
    }
  }

  lemma FinalSize(staged: seq<Staged>, sizes: Sizes, files: Files, id: CommitId, maxSize: nat, final: Sizes, e: Staged)
    requires StagedOk(staged, sizes, files) && AllNonNegative(staged) && maxSize > 0
    requires Reaches(QueueOf(staged, maxSize), CreatedSizes(staged, sizes, id, maxSize), final)
    requires e in staged
    ensures e.span.path in final && final[e.span.path] == e.span.start + e.span.num
  {
    var q := QueueOf(staged, maxSize);
    QueueFrom(staged, maxSize, e);
    if e.span.kind == Create {
      CreatedSize(staged, sizes, files, id, maxSize, e);
      QueueFrom(staged, maxSize, Spill(e, maxSize));
      if e.span.num <= maxSize {
        DistinctMembers(staged);
        forall x | x in q ensures x.span.path != e.span.path {
          QueueFrom(staged, maxSize, x);
        }
      }
    }
  }

  /** What staging alone says about a path. */
  lemma StagedSize(staged: seq<Staged>, sizes: Sizes, e: Staged)
    requires DistinctStaged(staged) && e in staged
    ensures e.span.path in After(StagedSpans(staged), sizes)
    ensures After(StagedSpans(staged), sizes)[e.span.path] == e.span.start + e.span.num
  {
    var i :| 0 <= i < |staged| && staged[i] == e;
    AfterLast(StagedSpans(staged), sizes, i);
  }

  lemma UnstagedSize(staged: seq<Staged>, sizes: Sizes, p: Path)
    requires forall e :: e in staged ==> e.span.path != p
    ensures p in After(StagedSpans(staged), sizes) <==> p in sizes
    ensures p in sizes ==> After(StagedSpans(staged), sizes)[p] == sizes[p]
  {
    forall i | 0 <= i < |staged| ensures StagedSpans(staged)[i].path != p {
      assert staged[i] in staged;
    }
    AfterFrame(StagedSpans(staged), sizes, p);
  }

  // ---------- The published bytes ----------

  ghost predicate CreatesIn(creates: seq<Staged>, blobs: Blobs, id: CommitId, files: Files, n: nat)
    requires n <= |creates|
  {
    forall i :: 0 <= i < n ==>
      BlobName(id, i) in blobs && blobs[BlobName(id, i)] == Slice(SourceOf(creates[i]), files)
  }

  lemma UploadCreate(creates: seq<Staged>, id: CommitId, files: Files, n: nat)
    requires n < |creates|
    ensures Upload(CreateOps(creates[..n + 1], id), files)
      == Upload(CreateOps(creates[..n], id), files)[BlobName(id, n) := Slice(SourceOf(creates[n]), files)]
  {
    var op := ConcatenatingAdd(BlobName(id, n), [SourceOf(creates[n])]);
    assert CreateOps(creates[..n + 1], id) == CreateOps(creates[..n], id) + [op];
    UploadSnoc(CreateOps(creates[..n], id), op, files);
    OneSource(SourceOf(creates[n]), files);
  }

  lemma {:induction false} CreatesPublished(creates: seq<Staged>, id: CommitId, files: Files, n: nat)
    requires n <= |creates|
    ensures AddsBlobs(map[], Upload(CreateOps(creates[..n], id), files), id, 0, n)
    ensures CreatesIn(creates, Upload(CreateOps(creates[..n], id), files), id, files, n)
  {
    if n == 0 {
      assert CreateOps(creates[..0], id) == [];
    } else {
      var older := Upload(CreateOps(creates[..n - 1], id), files);
      CreatesPublished(creates, id, files, n - 1);
      UploadCreate(creates, id, files, n - 1);
      AddBlob(map[], older, id, 0, n - 1, Slice(SourceOf(creates[n - 1]), files));
      CreateIn(creates, older, id, files, n - 1);
    }
  }

  lemma CreateIn(creates: seq<Staged>, older: Blobs, id: CommitId, files: Files, n: nat)
    requires n < |creates| && CreatesIn(creates, older, id, files, n)
    ensures CreatesIn(creates, older[BlobName(id, n) := Slice(SourceOf(creates[n]), files)], id, files, n + 1)
  {
  }

  lemma OneSource(s: Source, files: Files)
    ensures Content([s], files) == Slice(s, files)
  {
    assert [s][..0] == [];
  }

  /** Everything staged is inside the files, in place; so are the trimmed creates and the chunks. */
  lemma PartsReadable(staged: seq<Staged>, sizes: Sizes, files: Files, maxSize: nat)
    requires StagedOk(staged, sizes, files) && AllNonNegative(staged) && maxSize > 0
    ensures Readable(TrimmedCreates(staged, maxSize), files)
    ensures forall c :: c in TrimmedCreates(staged, maxSize) ==> c.span.start == 0
    ensures Readable(Chunks(staged, maxSize), files)
    ensures forall e :: e in Chunks(staged, maxSize) ==> e.span.kind == Append
  {
    var creates := OfKind(staged, Create);
    OfKindIn(staged, Create);
    forall c | c in TrimmedCreates(staged, maxSize)
      ensures Backed(c, files) && c.span.num >= 0 && c.span.start == 0
    {
      var i :| 0 <= i < |creates| && TrimmedCreates(staged, maxSize)[i] == c;
      assert creates[i] in creates;
    }
    forall e | e in QueueOf(staged, maxSize) ensures Backed(e, files) && e.span.kind == Append && e.span.num >= 0 {
      QueueFrom(staged, maxSize, e);
    }
    ScanBacked(QueueOf(staged, maxSize), files, maxSize);
    ScanChunks(QueueOf(staged, maxSize), maxSize);
  }

  /** The rows of the creates find their bytes: each is one whole blob. */
  lemma CreateRowsMatch(creates: seq<Staged>, id: CommitId, blobs: Blobs, files: Files)
    requires Readable(creates, files) && forall c :: c in creates ==> c.span.start == 0
    requires CreatesIn(creates, blobs, id, files, |creates|)
    ensures Published(CreateRows(creates, id), blobs, files)
    ensures forall r :: r in CreateRows(creates, id) ==>
      CreateOk(r, blobs) && r.span.kind == Create && r.blob.commit == id && r.blob.index < |creates|
    ensures forall r, x :: r in CreateRows(creates, id) && x in CreateRows(creates, id) && r.blob == x.blob ==> r == x
  {
    var rows := CreateRows(creates, id);
    forall r | r in rows
      ensures r.blob in blobs && RowMatches(r, blobs[r.blob], files) && CreateOk(r, blobs)
    {
      var i :| 0 <= i < |rows| && rows[i] == r;
      assert creates[i] in creates;
    }
  }

  /** Every packed blob has a row. */
  lemma {:induction false} PackedRowNames(bins: Bins, id: CommitId, batch: nat, blob: nat, k: nat, maxSize: nat)
    requires NextFit(bins, maxSize) && k < Count(bins)
    ensures exists r :: r in AllRows(bins, id, batch, blob) && r.blob == BlobName(id, blob + k)
  {
    if k < Count(bins.closed) {
      PackedRowNames(bins.closed, id, batch, blob, k, maxSize);
      RowsStep(bins, id, batch, blob);
    } else {
      var n, name := batch + |Flatten(bins.closed)|, BlobName(id, blob + k);
      BinRowsInOrder(bins.open, n, name);
      RowsStep(bins, id, batch, blob);
      assert BinRows(bins.open, n, name)[0] in AllRows(bins, id, batch, blob);
    }
  }

  /** The blobs before the appends are uploaded, and after. */
  lemma CommitBlobs(staged: seq<Staged>, sizes: Sizes, files: Files, id: CommitId, maxSize: nat)
    requires StagedOk(staged, sizes, files) && AllNonNegative(staged) && maxSize > 0
    ensures var creates := TrimmedCreates(staged, maxSize);
      var blobs := Upload(CommitOps(staged, id, maxSize), files);
      && CreatesIn(creates, blobs, id, files, |creates|)
      && AddsBlobs(map[], blobs, id, 0, |creates| + Count(Pack(Chunks(staged, maxSize), maxSize)))
      && Published(AppendRows(staged, id, maxSize), blobs, files)
  {
    var creates, bins := TrimmedCreates(staged, maxSize), Pack(Chunks(staged, maxSize), maxSize);
    PartsReadable(staged, sizes, files, maxSize);
    CreatesPublished(creates, id, files, |creates|);
    assert creates[..|creates|] == creates;
    AppendRowsAreChunks(staged, id, maxSize);
    PackMatches(bins, id, FirstAppendBatch(staged), |creates|, CreateOps(creates, id), files);
  }

  /** Each row finds its bytes in the uploaded blobs, each created file is a whole blob of its own. */
  lemma CommitPublished(staged: seq<Staged>, sizes: Sizes, files: Files, id: CommitId, maxSize: nat)
    requires StagedOk(staged, sizes, files) && AllNonNegative(staged) && maxSize > 0
    ensures Published(CommitRows(staged, id, maxSize), Upload(CommitOps(staged, id, maxSize), files), files)
    ensures CreatesOwnBlob(CommitRows(staged, id, maxSize), Upload(CommitOps(staged, id, maxSize), files))
  {
    var creates, blobs := TrimmedCreates(staged, maxSize), Upload(CommitOps(staged, id, maxSize), files);
    var a, b := CreateRows(creates, id), AppendRows(staged, id, maxSize);
    CommitBlobs(staged, sizes, files, id, maxSize);
    PartsReadable(staged, sizes, files, maxSize);
    CreateRowsMatch(creates, id, blobs, files);
    AppendRowsAfter(staged, sizes, files, id, maxSize);
    assert forall r :: r in a + b <==> r in a || r in b;
    NoDuplicatesInRows(a, b);
  }

  lemma AppendRowsAfter(staged: seq<Staged>, sizes: Sizes, files: Files, id: CommitId, maxSize: nat)
    requires StagedOk(staged, sizes, files) && AllNonNegative(staged) && maxSize > 0
    ensures forall r :: r in AppendRows(staged, id, maxSize) ==>
      r.span.kind == Append && r.blob.commit == id && r.blob.index >= |TrimmedCreates(staged, maxSize)|
    ensures forall i, j :: 0 <= i < j < |AppendRows(staged, id, maxSize)| ==>
      AppendRows(staged, id, maxSize)[i].batch < AppendRows(staged, id, maxSize)[j].batch
  {
    var bins := Pack(Chunks(staged, maxSize), maxSize);
    PartsReadable(staged, sizes, files, maxSize);
    AppendRowsAreChunks(staged, id, maxSize);
    RowNames(bins, id, FirstAppendBatch(staged), |TrimmedCreates(staged, maxSize)|);
    forall r | r in AppendRows(staged, id, maxSize) ensures r.span.kind == Append {
      var i :| 0 <= i < |AppendRows(staged, id, maxSize)| && AppendRows(staged, id, maxSize)[i] == r;
      assert r.span == StagedSpans(Chunks(staged, maxSize))[i];
      assert Chunks(staged, maxSize)[i] in Chunks(staged, maxSize);
    }
  }

  lemma NoDuplicatesInRows(a: seq<Row>, b: seq<Row>)
    requires forall i, j :: 0 <= i < j < |a| ==> a[i].blob != a[j].blob
    requires forall r :: r in a ==> r.span.kind == Create
    requires forall r :: r in b ==> r.span.kind == Append
    requires forall i, j :: 0 <= i < j < |b| ==> b[i].batch < b[j].batch
    ensures NoDuplicates(a + b)
  {
    forall i, j | 0 <= i < j < |a + b| ensures (a + b)[i] != (a + b)[j] {
      if i < |a| && j >= |a| {
        assert a[i] in a && b[j - |a|] in b;
      }
    }
  }

  /** The commit uploads exactly the blobs that its rows name. */
  lemma CommitNames(staged: seq<Staged>, sizes: Sizes, files: Files, id: CommitId, maxSize: nat)
    requires StagedOk(staged, sizes, files) && AllNonNegative(staged) && maxSize > 0
    ensures forall b :: b in Upload(CommitOps(staged, id, maxSize), files) ==> b.commit == id
    ensures forall b :: b in Upload(CommitOps(staged, id, maxSize), files) <==>
      b in BlobNames(CommitRows(staged, id, maxSize))
  {
    var creates, bins := TrimmedCreates(staged, maxSize), Pack(Chunks(staged, maxSize), maxSize);
    var blobs, rows := Upload(CommitOps(staged, id, maxSize), files), CommitRows(staged, id, maxSize);
    var a, batch := CreateRows(creates, id), FirstAppendBatch(staged);
    CommitBlobs(staged, sizes, files, id, maxSize);
    CommitPublished(staged, sizes, files, id, maxSize);
    AppendRowsAreChunks(staged, id, maxSize);
    BlobNamesIn(rows);
    forall b | b in blobs ensures b in BlobNames(rows) {
      if b.index < |creates| {
        assert a[b.index] in rows;
      } else {
        PackedRowNames(bins, id, batch, |creates|, b.index - |creates|, maxSize);
        var r :| r in AllRows(bins, id, batch, |creates|) && r.blob == b;
        assert r in rows;
      }
    }
  }

  predicate RowsNonNegative(rows: seq<Row>) {
    forall r :: r in rows ==> r.span.num >= 0
  }

  /** A row of a commit is a trimmed create or a chunk. */
  lemma RowFrom(staged: seq<Staged>, id: CommitId, maxSize: nat, r: Row)
    requires maxSize > 0 && r in CommitRows(staged, id, maxSize)
    ensures (exists c :: c in staged && c.span.kind == Create && r.span.num == Trim(c, maxSize).span.num)
         || (exists e :: e in Chunks(staged, maxSize) && r.span.num == e.span.num)
  {
    var creates := OfKind(staged, Create);
    var a, b := CreateRows(TrimmedCreates(staged, maxSize), id), AppendRows(staged, id, maxSize);
    OfKindIn(staged, Create);
    if r in a {
      var i :| 0 <= i < |a| && a[i] == r;
      assert creates[i] in creates;
    } else {
      AppendRowsAreChunks(staged, id, maxSize);
      var i :| 0 <= i < |b| && b[i] == r;
      assert SpansOf(b)[i] == StagedSpans(Chunks(staged, maxSize))[i];
      assert Chunks(staged, maxSize)[i] in Chunks(staged, maxSize);
    }
  }

  /** Every row respects the size limit. */
  lemma RowsWithinLimit(staged: seq<Staged>, id: CommitId, maxSize: nat)
    requires maxSize > 0
    ensures forall r :: r in CommitRows(staged, id, maxSize) ==> r.span.num <= maxSize
  {
    ScanChunks(QueueOf(staged, maxSize), maxSize);
    forall r | r in CommitRows(staged, id, maxSize) ensures r.span.num <= maxSize {
      RowFrom(staged, id, maxSize, r);
    }
  }

  /** A staged change has a row with its size, or with the size limit when it is larger. */
  lemma StagedHasRow(staged: seq<Staged>, id: CommitId, maxSize: nat, e: Staged)
    requires maxSize > 0 && e in staged && e.span.num <= maxSize
    ensures exists r :: r in CommitRows(staged, id, maxSize) && r.span.num == e.span.num
  {
    OfKindIn(staged, e.span.kind);
    if e.span.kind == Create {
      var i :| 0 <= i < |OfKind(staged, Create)| && OfKind(staged, Create)[i] == e;
      var r := CreateRows(TrimmedCreates(staged, maxSize), id)[i];
      assert r in CommitRows(staged, id, maxSize);
    } else {
      QueueFrom(staged, maxSize, e);
      ScanHas(QueueOf(staged, maxSize), maxSize, e);
      AppendRowsAreChunks(staged, id, maxSize);
      var i :| 0 <= i < |Chunks(staged, maxSize)| && Chunks(staged, maxSize)[i] == e;
      var r := AppendRows(staged, id, maxSize)[i];
      assert r.span == SpansOf(AppendRows(staged, id, maxSize))[i] == StagedSpans(Chunks(staged, maxSize))[i];
      assert r in CommitRows(staged, id, maxSize);
    }
  }

  lemma {:induction false} ScanHas(q: seq<Staged>, maxSize: nat, e: Staged)
    requires maxSize > 0 && e in q && e.span.num <= maxSize
    ensures e in Scan(q, maxSize)
    decreases Mass(q)
  {
    MassDecreases(q, maxSize);
    if e != q[0] {
      assert e in q[1..];
      ScanHas(q[1..] + Spills(q[0], maxSize), maxSize, e);
    }
  }

  /** A negative staged size stays visible as a negative row. */
  lemma SignsSurvive(staged: seq<Staged>, id: CommitId, maxSize: nat)
    requires maxSize > 0
    ensures AllNonNegative(staged) <==> RowsNonNegative(CommitRows(staged, id, maxSize))
  {
    if AllNonNegative(staged) {
      forall e | e in QueueOf(staged, maxSize) ensures e.span.num >= 0 {
        QueueFrom(staged, maxSize, e);
      }
      ScanChunks(QueueOf(staged, maxSize), maxSize);
      forall r | r in CommitRows(staged, id, maxSize) ensures r.span.num >= 0 {
        RowFrom(staged, id, maxSize, r);
      }
    } else {
      var e :| e in staged && e.span.num < 0;
      StagedHasRow(staged, id, maxSize, e);
    }
  }

  /** Something staged means something to apply. */
  lemma RowsNotEmpty(staged: seq<Staged>, id: CommitId, maxSize: nat)
    requires maxSize > 0 && staged != []
    ensures CommitRows(staged, id, maxSize) != []
  {
    OfKindIn(staged, Create);
    OfKindIn(staged, Append);
    var e := staged[0];
    assert e in OfKind(staged, e.span.kind);
    if e.span.kind == Append {
      AppendRowsAreChunks(staged, id, maxSize);
      assert QueueOf(staged, maxSize) != [];
      assert |SpansOf(AppendRows(staged, id, maxSize))| == |StagedSpans(Chunks(staged, maxSize))|;
    }
  }
}
